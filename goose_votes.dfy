/**
 * Vote resolution of the goose-duck meeting: a declarative account of who
 * is ejected by a vote map, and the counting procedure of
 * `_resolve_votes` proved to compute it.
 */
module GooseVotes {
  import opened Common
  import opened GooseRules

  datatype VoteOutcome = NoEjection | Tie | Ejected(id: PlayerId)

  /** Voters in `voters` whose ballot names `t`. */
  function CountAmong(votes: map<PlayerId, Option<PlayerId>>, voters: set<PlayerId>, t: PlayerId): nat
  {
    |set v | v in voters && v in votes && votes[v] == Some(t)|
  }

  /** How many ballots name `t`. */
  function VoteCount(votes: map<PlayerId, Option<PlayerId>>, t: PlayerId): nat
  {
    CountAmong(votes, votes.Keys, t)
  }

  /** Targets named by a counted ballot among `voters`; a skip (`None`) or an empty name is not counted. */
  function CandidatesAmong(votes: map<PlayerId, Option<PlayerId>>, voters: set<PlayerId>): set<PlayerId>
  {
    set v | v in voters && v in votes && Present(votes[v]) :: votes[v].value
  }

  function Candidates(votes: map<PlayerId, Option<PlayerId>>): set<PlayerId>
  {
    CandidatesAmong(votes, votes.Keys)
  }

  /** `t` received strictly more votes than any other candidate. */
  predicate UniqueTop(votes: map<PlayerId, Option<PlayerId>>, t: PlayerId)
  {
    t in Candidates(votes) &&
    forall u :: u in Candidates(votes) && u != t ==> VoteCount(votes, u) < VoteCount(votes, t)
  }

  /**
   * The result of a vote: nobody is ejected when no ballot names anyone;
   * the unique strict leader is ejected; any tie at the top ejects nobody.
   */
  function VoteResult(votes: map<PlayerId, Option<PlayerId>>): VoteOutcome
  {
    if Candidates(votes) == {} then NoEjection
    else if exists t :: t in Candidates(votes) && UniqueTop(votes, t) then
      var t :| t in Candidates(votes) && UniqueTop(votes, t);
      Ejected(t)
    else Tie
  }

  lemma UniqueTopIsUnique(votes: map<PlayerId, Option<PlayerId>>, t: PlayerId, u: PlayerId)
    requires UniqueTop(votes, t) && UniqueTop(votes, u)
    ensures t == u
  {
  }

  /** Counting one more voter adds one exactly when that ballot names `t`. */
  lemma CountStep(votes: map<PlayerId, Option<PlayerId>>, done: set<PlayerId>, v: PlayerId, t: PlayerId)
    requires v in votes && v !in done
    ensures CountAmong(votes, done + {v}, t) ==
            CountAmong(votes, done, t) + (if votes[v] == Some(t) then 1 else 0)
  {
    var before := set w | w in done && w in votes && votes[w] == Some(t);
    var after := set w | w in done + {v} && w in votes && votes[w] == Some(t);
    if votes[v] == Some(t) {
      assert after == before + {v};
    } else {
      assert after == before;
    }
  }

  /** A candidate has at least one vote. */
  lemma CandidateHasVote(votes: map<PlayerId, Option<PlayerId>>, t: PlayerId)
    requires t in Candidates(votes)
    ensures VoteCount(votes, t) >= 1
  {
    var v :| v in votes && Present(votes[v]) && votes[v].value == t;
    var named := set w | w in votes.Keys && w in votes && votes[w] == Some(t);
    assert v in named;
    SubsetCard({v}, named);
  }

  /** The first loop of `_resolve_votes`: ballots per named target. */
  method CountBallots(votes: map<PlayerId, Option<PlayerId>>) returns (counts: map<PlayerId, nat>)
    ensures counts.Keys == Candidates(votes)
    ensures forall t :: t in counts ==> counts[t] == VoteCount(votes, t)
  {
    counts := map[];
    var rest := votes.Keys;
    ghost var done: set<PlayerId> := {};
    while rest != {}
      invariant rest + done == votes.Keys && rest !! done
      invariant counts.Keys == CandidatesAmong(votes, done)
      invariant forall t :: t in counts ==> counts[t] == CountAmong(votes, done, t)
      decreases rest
    {
      var v :| v in rest;
      forall t ensures CountAmong(votes, done + {v}, t) ==
                       CountAmong(votes, done, t) + (if votes[v] == Some(t) then 1 else 0) {
        CountStep(votes, done, v, t);
      }
      if Present(votes[v]) {
        var t := votes[v].value;
        counts := counts[t := (if t in counts then counts[t] else 0) + 1];
      }
      rest := rest - {v};
      done := done + {v};
    }
    assert done == votes.Keys;
  }

  /**
   * `_resolve_votes`' tally: count the ballots per named target, take the
   * highest count and the targets that reach it; no counts means nobody is
   * ejected, more than one top target is a tie, a single one is ejected.
   */
  method TallyVotes(votes: map<PlayerId, Option<PlayerId>>) returns (o: VoteOutcome)
    ensures o == VoteResult(votes)
  {
    var counts := CountBallots(votes);
    if counts == map[] {
      return NoEjection;
    }
    var maxVotes := MaxCount(counts);
    var top := set t | t in counts && counts[t] == maxVotes;
    var w :| w in counts && counts[w] == maxVotes;
    assert w in top;
    if |top| > 1 {
      assert top - {w} != {} by {
        if top - {w} == {} {
          SubsetCard(top, {w});
        }
      }
      var u :| u in top && u != w;
      SharedTopIsTie(votes, w, u);
      return Tie;
    }
    assert top == {w} by {
      forall x | x in top ensures x == w {
        if x != w {
          SubsetCard({x, w}, top);
        }
      }
    }
    forall u | u in Candidates(votes) && u != w
      ensures VoteCount(votes, u) < VoteCount(votes, w)
    {
      assert u !in top;
    }
    EjectedIffStrictLeader(votes, w);
    return Ejected(w);
  }

  lemma SubsetCard<T>(a: set<T>, b: set<T>)
    requires a <= b
    ensures |a| <= |b|
  {
    assert b == a + (b - a);
  }

  /** Python's `max(vote_counts.values())` over a non-empty count map. */
  method MaxCount(counts: map<PlayerId, nat>) returns (m: nat)
    requires counts != map[]
    ensures forall t :: t in counts ==> counts[t] <= m
    ensures exists t :: t in counts && counts[t] == m
  {
    var keys := counts.Keys;
    var first :| first in keys;
    m := counts[first];
    keys := keys - {first};
    while keys != {}
      invariant keys <= counts.Keys
      invariant first in counts && counts[first] <= m
      invariant exists t :: t in counts && counts[t] == m
      invariant forall t :: t in counts && t !in keys ==> counts[t] <= m
      decreases keys
    {
      var k :| k in keys;
      if counts[k] > m {
        m := counts[k];
      }
      keys := keys - {k};
    }
  }

  /** When every ballot is a skip (or names nobody), nobody is ejected. */
  lemma {:induction false} AllSkipsEjectNobody(votes: map<PlayerId, Option<PlayerId>>)
    requires forall v :: v in votes ==> !Present(votes[v])
    ensures VoteResult(votes) == NoEjection
  {
    assert Candidates(votes) == {};
  }

  /**
   * A unanimous vote ejects its target: if at least one ballot names `t`
   * and every counted ballot names `t`, then `t` is ejected.
   */
  lemma UnanimousEjects(votes: map<PlayerId, Option<PlayerId>>, t: PlayerId)
    requires exists v :: v in votes && votes[v] == Some(t)
    requires t != ""
    requires forall v :: v in votes && Present(votes[v]) ==> votes[v] == Some(t)
    ensures VoteResult(votes) == Ejected(t)
  {
    var v :| v in votes && votes[v] == Some(t);
    assert t in Candidates(votes);
    assert Candidates(votes) == {t};
    assert UniqueTop(votes, t);
    forall u | UniqueTop(votes, u) ensures u == t {
      UniqueTopIsUnique(votes, u, t);
    }
  }

  /**
   * Ejection happens exactly for a strict leader: `t` is ejected if and
   * only if it has more votes than every other named target.
   */
  lemma EjectedIffStrictLeader(votes: map<PlayerId, Option<PlayerId>>, t: PlayerId)
    ensures VoteResult(votes) == Ejected(t) <==> UniqueTop(votes, t)
  {
    if UniqueTop(votes, t) {
      forall u | UniqueTop(votes, u) ensures u == t {
        UniqueTopIsUnique(votes, u, t);
      }
    }
  }

  /** Two different targets sharing the highest count make a tie. */
  lemma SharedTopIsTie(votes: map<PlayerId, Option<PlayerId>>, a: PlayerId, b: PlayerId)
    requires a != b && a in Candidates(votes) && b in Candidates(votes)
    requires VoteCount(votes, a) == VoteCount(votes, b)
    requires forall u :: u in Candidates(votes) ==> VoteCount(votes, u) <= VoteCount(votes, a)
    ensures VoteResult(votes) == Tie
  {
  }
}
