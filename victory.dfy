/**
 * Victory attribution of `onVictory` in assets/js/bossfight.js: the guilds are listed
 * as `{i, hits}`, sorted by hits in descending order with a stable sort, and the first
 * entry is the top contributor; the final blow is `lastHit`.
 */
module Victory {
  import opened Wrappers
  import opened FightModel

  datatype Contrib = Contrib(i: int, hits: int)

  /** `state.guilds.map((g, i) => ({i, hits: g.hits}))`. */
  function Contribs(gs: seq<Guild>): seq<Contrib>
  {
    seq(|gs|, k requires 0 <= k < |gs| => Contrib(k, gs[k].hits))
  }

  /**
   * Insert x, which came before every entry of s, into s (sorted by descending hits):
   * x goes in front of the first entry with no more hits than it has, so ties keep
   * their original order.
   */
  function Insert(x: Contrib, s: seq<Contrib>): seq<Contrib>
  {
    if s == [] || s[0].hits <= x.hits then [x] + s else [s[0]] + Insert(x, s[1..])
  }

  /** `contrib.sort((a, b) => b.hits - a.hits)`, written as a stable insertion sort. */
  function SortByHits(cs: seq<Contrib>): seq<Contrib>
  {
    if cs == [] then [] else Insert(cs[0], SortByHits(cs[1..]))
  }

  ghost predicate Descending(s: seq<Contrib>)
  {
    forall j, k :: 0 <= j < k < |s| ==> s[j].hits >= s[k].hits
  }

  /** Inserting adds exactly x. */
  lemma {:induction false} InsertPermutes(x: Contrib, s: seq<Contrib>)
    ensures multiset(Insert(x, s)) == multiset(s) + multiset{x}
    decreases |s|
  {
    if s == [] || s[0].hits <= x.hits {
      assert Insert(x, s) == [x] + s;
    } else {
      InsertPermutes(x, s[1..]);
      assert s == [s[0]] + s[1..];
    }
  }

  /** Inserting into a descending sequence keeps it descending. */
  lemma {:induction false} InsertSorted(x: Contrib, s: seq<Contrib>)
    requires Descending(s)
    ensures Descending(Insert(x, s))
    decreases |s|
  {
    if s == [] || s[0].hits <= x.hits {
      DescendingCons(x, s);
    } else {
      var t := s[1..];
      assert Descending(t);
      InsertSorted(x, t);
      assert forall k :: 0 <= k < |t| ==> t[k] == s[k + 1];
      InsertBounded(x, t, s[0].hits);
      DescendingCons(s[0], Insert(x, t));
    }
  }

  /** The head after inserting: x when it has at least as many hits as the old head. */
  lemma InsertHead(x: Contrib, s: seq<Contrib>)
    ensures Insert(x, s) != []
    ensures Insert(x, s)[0] == if s == [] || s[0].hits <= x.hits then x else s[0]
  {
  }

  /** Inserting keeps every entry at or below a bound that x and all of s respect. */
  lemma {:induction false} InsertBounded(x: Contrib, s: seq<Contrib>, b: int)
    requires x.hits <= b && forall k :: 0 <= k < |s| ==> s[k].hits <= b
    ensures forall k :: 0 <= k < |Insert(x, s)| ==> Insert(x, s)[k].hits <= b
    decreases |s|
  {
    if s != [] && s[0].hits > x.hits {
      InsertBounded(x, s[1..], b);
      var u := Insert(x, s[1..]);
      assert forall k :: 1 <= k < |Insert(x, s)| ==> Insert(x, s)[k] == u[k - 1];
    }
  }

  lemma DescendingCons(h: Contrib, u: seq<Contrib>)
    requires Descending(u)
    requires forall k :: 0 <= k < |u| ==> u[k].hits <= h.hits
    ensures Descending([h] + u)
  {
    var r := [h] + u;
    forall j, k | 0 <= j < k < |r| ensures r[j].hits >= r[k].hits {
      assert r[k] == u[k - 1];
      if j > 0 {
        assert r[j] == u[j - 1];
      }
    }
  }

  /** The sort is a permutation of its input and is ordered by descending hits. */
  lemma {:induction false} SortByHitsSorts(cs: seq<Contrib>)
    ensures multiset(SortByHits(cs)) == multiset(cs)
    ensures Descending(SortByHits(cs))
    decreases |cs|
  {
    if cs != [] {
      SortByHitsSorts(cs[1..]);
      InsertPermutes(cs[0], SortByHits(cs[1..]));
      InsertSorted(cs[0], SortByHits(cs[1..]));
      assert cs == [cs[0]] + cs[1..];
    }
  }

  /** The first index holding the largest hit count. */
  function FirstMax(cs: seq<Contrib>): (m: nat)
    requires |cs| > 0
    ensures m < |cs|
    ensures forall j :: 0 <= j < |cs| ==> cs[j].hits <= cs[m].hits
    ensures forall j :: 0 <= j < m ==> cs[j].hits < cs[m].hits
    decreases |cs|
  {
    if |cs| == 1 then 0
    else
      var k := FirstMax(cs[1..]);
      if cs[0].hits >= cs[1 + k].hits then 0 else 1 + k
  }

  /** The stable descending sort puts the first maximal entry in front. */
  lemma {:induction false} SortHeadIsFirstMax(cs: seq<Contrib>)
    requires |cs| > 0
    ensures |SortByHits(cs)| == |cs|
    ensures SortByHits(cs)[0] == cs[FirstMax(cs)]
    decreases |cs|
  {
    SortByHitsSorts(cs);
    assert |multiset(SortByHits(cs))| == |cs|;
    if |cs| > 1 {
      var t := cs[1..];
      SortHeadIsFirstMax(t);
      SortByHitsSorts(t);
      InsertHead(cs[0], SortByHits(t));
      assert t[FirstMax(t)] == cs[1 + FirstMax(t)];
    }
  }

  /** What the victory banner reports: the top contributor (none when it has no hits) and the final blow. */
  datatype Report = Report(top: Option<int>, topHits: int, finalBlow: Option<int>)

  /** `onVictory()`: `contrib[0]` after the sort, reported only when `top.hits > 0`; `lastHit` as the final blow. */
  function Attribution(s: FightState): (v: Report)
    requires |s.guilds| > 0
    ensures v.finalBlow == s.lastHit
    ensures v.top.None? <==> forall j :: 0 <= j < |s.guilds| ==> s.guilds[j].hits <= 0
    ensures v.top.Some? ==>
      var t := v.top.value;
      && 0 <= t < |s.guilds| && v.topHits == s.guilds[t].hits > 0
      && (forall j :: 0 <= j < |s.guilds| ==> s.guilds[j].hits <= s.guilds[t].hits)
      && (forall j :: 0 <= j < t ==> s.guilds[j].hits < s.guilds[t].hits)
  {
    var cs := Contribs(s.guilds);
    assert |cs| == |s.guilds| && forall k :: 0 <= k < |cs| ==> cs[k] == Contrib(k, s.guilds[k].hits);
    SortHeadIsFirstMax(cs);
    var top := SortByHits(cs)[0];
    Report(if top.hits > 0 then Some(top.i) else None, top.hits, s.lastHit)
  }

  /** With hits 2, 5, 5 and the final blow by guild 0, guild 1 is the top contributor. */
  lemma TieGoesToLowerIndex(s: FightState)
    requires |s.guilds| == 3 && s.lastHit == Some(0)
    requires s.guilds[0].hits == 2 && s.guilds[1].hits == 5 && s.guilds[2].hits == 5
    ensures Attribution(s) == Report(Some(1), 5, Some(0))
  {
    var v := Attribution(s);
    assert s.guilds[1].hits > s.guilds[0].hits;
  }

  /** Three hits on a 3-heart boss by guilds 0, 1, 2 end the fight with the final blow by guild 2. */
  lemma ThreeHitVictory(s: FightState)
    requires |s.guilds| == 3 && s.bossHPMax == 3 && s.bossHP == 3
    ensures var t := Hit(Hit(Hit(s, 0), 1), 2);
      t.bossHP == 0 && Attribution(t).finalBlow == Some(2)
  {
  }
}
