/**
 * Candidate lists (player_candidates, banker_candidates, tie_candidates) and
 * the vote that turns one list into a single percentage.
 */
module Candidates {
  import opened Domain

  /** A snapshot of the three candidate lists. */
  datatype Candidates = Candidates(player: seq<int>, banker: seq<int>, tie: seq<int>) {
    function Get(l: Label): seq<int> {
      match l
      case Player => player
      case Banker => banker
      case Tie => tie
    }

    /** The lists after `vs` is appended to l's list. */
    function Extend(l: Label, vs: seq<int>): (c: Candidates)
      ensures c.Get(l) == Get(l) + vs
      ensures forall m :: m != l ==> c.Get(m) == Get(m)
    {
      match l
      case Player => this.(player := player + vs)
      case Banker => this.(banker := banker + vs)
      case Tie => this.(tie := tie + vs)
    }

    /** Every list of `d` appended to the matching list of this one. */
    function Plus(d: Candidates): (c: Candidates)
      ensures forall l :: c.Get(l) == Get(l) + d.Get(l)
    {
      Candidates(player + d.player, banker + d.banker, tie + d.tie)
    }
  }

  const NoCandidates := Candidates([], [], [])

  lemma ExtendTwice(c: Candidates, l: Label, a: seq<int>, b: seq<int>)
    ensures c.Extend(l, a).Extend(l, b) == c.Extend(l, a + b)
  {
  }

  lemma PlusAssoc(a: Candidates, b: Candidates, d: Candidates)
    ensures a.Plus(b).Plus(d) == a.Plus(b.Plus(d))
  {
  }

  /** The three Python lists, appended to in place by the collectors. */
  class CandidateLists {
    var player: seq<int>
    var banker: seq<int>
    var tie: seq<int>

    function Snapshot(): Candidates
      reads this
    {
      Candidates(player, banker, tie)
    }

    constructor (seed: Candidates)
      ensures Snapshot() == seed
    {
      player, banker, tie := seed.player, seed.banker, seed.tie;
    }

    /** list.append(v) on l's list. */
    method Append(l: Label, v: int)
      modifies this
      ensures Snapshot() == old(Snapshot()).Extend(l, [v])
    {
      match l
      case Player => player := player + [v];
      case Banker => banker := banker + [v];
      case Tie => tie := tie + [v];
    }

    /** `if v not in lst: lst.append(v)` on l's list. */
    method AppendIfAbsent(l: Label, v: int)
      modifies this
      ensures Snapshot() == if v in old(Snapshot()).Get(l) then old(Snapshot()) else old(Snapshot()).Extend(l, [v])
    {
      var present := v in Snapshot().Get(l);
      if !present {
        Append(l, v);
      }
    }
  }

  // ---------------------------------------------------------------- the vote

  function Count(s: seq<int>, x: int): nat {
    multiset(s)[x]
  }

  /** x is ahead of y under the key (count, value) that max() compares. */
  predicate Ahead(s: seq<int>, x: int, y: int) {
    Count(s, x) > Count(s, y) || (Count(s, x) == Count(s, y) && x > y)
  }

  /** The value of xs that no other value of xs is ahead of. */
  function Leader(s: seq<int>, xs: seq<int>): (r: int)
    requires xs != []
    ensures r in xs
    ensures forall y :: y in xs ==> !Ahead(s, y, r)
    decreases |xs|
  {
    if |xs| == 1 then xs[0]
    else
      var rest := Leader(s, xs[1..]);
      assert forall y :: y in xs ==> y == xs[0] || y in xs[1..];
      if Ahead(s, xs[0], rest) then xs[0] else rest
  }

  /**
   * `max(set(cands), key=lambda x: (cands.count(x), x))`: the most frequent
   * candidate, the larger one when several are equally frequent.
   */
  function Vote(s: seq<int>): (r: Option<int>)
    ensures r.None? <==> s == []
    ensures r.Some? ==> r.value in s
    ensures r.Some? ==> forall y :: y in s ==> Count(s, y) <= Count(s, r.value)
    ensures r.Some? ==> forall y :: y in s && Count(s, y) == Count(s, r.value) ==> y <= r.value
  {
    if s == [] then None else Some(Leader(s, s))
  }

  /** The vote sees only how often each value occurs, not the order of the candidates. */
  lemma VoteIgnoresOrder(s: seq<int>, t: seq<int>)
    requires multiset(s) == multiset(t)
    ensures Vote(s) == Vote(t)
  {
    if s != [] {
      assert t != [] by { assert |t| == |multiset(t)| == |multiset(s)| == |s|; }
      var a, b := Vote(s).value, Vote(t).value;
      assert forall x :: Count(s, x) == Count(t, x);
      assert a in multiset(t) && b in multiset(s);
    }
  }

  /** A list holding one repeated value elects that value. */
  lemma VoteUnanimous(s: seq<int>, v: int)
    requires s != [] && forall k :: 0 <= k < |s| ==> s[k] == v
    ensures Vote(s) == Some(v)
  {
  }

  /** Two values tied in frequency: the larger is elected. */
  lemma VoteTieGoesToLarger(a: int, b: int)
    requires a < b
    ensures Vote([a, b, b, a]) == Some(b)
  {
    var s := [a, b, b, a];
    assert Count(s, a) == 2 && Count(s, b) == 2;
    assert forall y :: y in s ==> y == a || y == b;
  }
}
