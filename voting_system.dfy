/**
 * The voting canister: a store of votes keyed by id, an id counter, and the
 * queries computed by scanning the store.
 */
module VotingSystem {
  import opened Outcomes
  import KeyOrder

  datatype Error = InsertFailed | VoteNotFoundError

  datatype Vote = Vote(id: nat, candidate: string, voter: string, timestamp: nat)

  /** The order in which the B-tree hands out votes: ascending id. */
  ghost predicate IdsAscending(vs: seq<Vote>) {
    forall i, j :: 0 <= i < j < |vs| ==> vs[i].id < vs[j].id
  }

  ghost predicate Distinct(cs: seq<string>) {
    forall i, j :: 0 <= i < j < |cs| ==> cs[i] != cs[j]
  }

  // ---------------------------------------------------------------------------
  // Scans over a listing of votes
  // ---------------------------------------------------------------------------

  /** Iterator `filter`: the votes satisfying `p`, in their original order. */
  function Select(vs: seq<Vote>, p: Vote -> bool): (r: seq<Vote>)
    ensures |r| <= |vs|
    ensures forall v :: v in r <==> v in vs && p(v)
    ensures IdsAscending(vs) ==> IdsAscending(r)
  {
    if vs == [] then []
    else
      var rest := Select(vs[1..], p);
      assert vs == [vs[0]] + vs[1..];
      assert IdsAscending(vs) ==> IdsAscending(vs[1..]) && forall v :: v in rest ==> vs[0].id < v.id by {
        if IdsAscending(vs) {
          IdsAscendingTail(vs);
        }
      }
      if p(vs[0]) then [vs[0]] + rest else rest
  }

  lemma IdsAscendingTail(vs: seq<Vote>)
    requires vs != [] && IdsAscending(vs)
    ensures IdsAscending(vs[1..])
    ensures forall v :: v in vs[1..] ==> vs[0].id < v.id
  {
    forall i, j | 0 <= i < j < |vs[1..]| ensures vs[1..][i].id < vs[1..][j].id {
      assert vs[1..][i] == vs[i + 1] && vs[1..][j] == vs[j + 1];
    }
    forall v | v in vs[1..] ensures vs[0].id < v.id {
      var k :| 0 <= k < |vs[1..]| && vs[1..][k] == v;
      assert vs[k + 1] == v;
    }
  }

  /** Nothing is selected when nothing matches. */
  lemma {:induction false} SelectNone(vs: seq<Vote>, p: Vote -> bool)
    requires forall v :: v in vs ==> !p(v)
    ensures Select(vs, p) == []
  {
    if vs != [] {
      assert forall v :: v in vs[1..] ==> v in vs;
      SelectNone(vs[1..], p);
    }
  }

  /** Filtering a listing extended by one vote extends the filtered listing by that vote, if it matches. */
  lemma {:induction false} SelectSnoc(vs: seq<Vote>, v: Vote, p: Vote -> bool)
    ensures Select(vs + [v], p) == Select(vs, p) + (if p(v) then [v] else [])
  {
    if vs == [] {
      assert [v][1..] == [];
    } else {
      assert (vs + [v])[1..] == vs[1..] + [v];
      SelectSnoc(vs[1..], v, p);
    }
  }

  function CandidateIs(c: string): Vote -> bool {
    (v: Vote) => v.candidate == c
  }

  function VoterIs(voter: string): Vote -> bool {
    (v: Vote) => v.voter == voter
  }

  /** The inclusive range test of `get_votes_in_time_range`. */
  function WithinTime(start: nat, end: nat): Vote -> bool {
    (v: Vote) => v.timestamp >= start && v.timestamp <= end
  }

  /** The number of votes for `c` in a listing. */
  ghost function Count(vs: seq<Vote>, c: string): nat {
    |Select(vs, CandidateIs(c))|
  }

  lemma CountSnoc(vs: seq<Vote>, v: Vote, c: string)
    ensures Count(vs + [v], c) == Count(vs, c) + (if v.candidate == c then 1 else 0)
  {
    SelectSnoc(vs, v, CandidateIs(c));
  }

  lemma PrefixSnoc(vs: seq<Vote>, i: nat)
    requires i < |vs|
    ensures vs[..i + 1] == vs[..i] + [vs[i]]
  {
  }

  /** `counts` holds, for each candidate with a vote in `vs`, its number of votes, and nothing else. */
  ghost predicate Tallied(counts: map<string, nat>, vs: seq<Vote>) {
    forall c :: (c in counts <==> Count(vs, c) > 0) && (c in counts ==> counts[c] == Count(vs, c))
  }

  lemma TallyStep(counts: map<string, nat>, vs: seq<Vote>, v: Vote)
    requires Tallied(counts, vs)
    ensures Tallied(counts[v.candidate := (if v.candidate in counts then counts[v.candidate] else 0) + 1], vs + [v])
  {
    forall c {
      CountSnoc(vs, v, c);
    }
  }

  /** A candidate has a positive count exactly when some vote in the listing is for it. */
  lemma CountPositive(vs: seq<Vote>, c: string)
    ensures Count(vs, c) > 0 <==> exists v :: v in vs && v.candidate == c
  {
    var r := Select(vs, CandidateIs(c));
    if |r| > 0 {
      assert r[0] in r;
    }
  }

  /** The per-candidate counts added up over a list of candidates. */
  ghost function SumCounts(vs: seq<Vote>, cs: seq<string>): nat {
    if cs == [] then 0 else Count(vs, cs[0]) + SumCounts(vs, cs[1..])
  }

  lemma {:induction false} SumCountsCons(v: Vote, rest: seq<Vote>, cs: seq<string>)
    requires Distinct(cs)
    ensures SumCounts([v] + rest, cs) == SumCounts(rest, cs) + (if v.candidate in cs then 1 else 0)
  {
    if cs != [] {
      assert Distinct(cs[1..]) by {
        forall i, j | 0 <= i < j < |cs[1..]| ensures cs[1..][i] != cs[1..][j] {
          assert cs[1..][i] == cs[i + 1] && cs[1..][j] == cs[j + 1];
        }
      }
      SumCountsCons(v, rest, cs[1..]);
      assert ([v] + rest)[1..] == rest;
      assert cs == [cs[0]] + cs[1..];
      assert cs[0] !in cs[1..] by {
        forall k | 0 <= k < |cs[1..]| ensures cs[1..][k] != cs[0] {
          assert cs[1..][k] == cs[k + 1];
        }
      }
    }
  }

  /**
   * Counting the votes of each candidate of a duplicate-free list that covers
   * every candidate accounts for every vote exactly once.
   */
  lemma {:induction false} SumCountsCoversAll(vs: seq<Vote>, cs: seq<string>)
    requires Distinct(cs)
    requires forall v :: v in vs ==> v.candidate in cs
    ensures SumCounts(vs, cs) == |vs|
  {
    if vs == [] {
      SumCountsEmpty(cs);
    } else {
      assert vs == [vs[0]] + vs[1..];
      SumCountsCoversAll(vs[1..], cs);
      SumCountsCons(vs[0], vs[1..], cs);
    }
  }

  lemma {:induction false} SumCountsEmpty(cs: seq<string>)
    ensures SumCounts([], cs) == 0
  {
    if cs != [] {
      SumCountsEmpty(cs[1..]);
    }
  }

  /** Iterator `max` over the timestamps: `None` exactly for an empty listing. */
  function MaxTimestamp(vs: seq<Vote>): (r: Option<nat>)
    ensures r.None? <==> vs == []
    ensures r.Some? ==> exists v :: v in vs && v.timestamp == r.value
    ensures r.Some? ==> forall v :: v in vs ==> v.timestamp <= r.value
  {
    if vs == [] then None
    else
      match MaxTimestamp(vs[1..])
      case None => Some(vs[0].timestamp)
      case Some(t) =>
        assert forall v :: v in vs ==> v == vs[0] || v in vs[1..];
        Some(if vs[0].timestamp >= t then vs[0].timestamp else t)
  }

  // ---------------------------------------------------------------------------
  // Sorting by timestamp
  // ---------------------------------------------------------------------------

  /**
   * `u` comes before `v` in a stable sort by timestamp of a listing whose ids
   * ascend: by timestamp, and by id among equal timestamps.
   */
  ghost predicate Before(u: Vote, v: Vote) {
    u.timestamp < v.timestamp || (u.timestamp == v.timestamp && u.id < v.id)
  }

  ghost predicate ChronoOrdered(vs: seq<Vote>) {
    forall i, j :: 0 <= i < j < |vs| ==> Before(vs[i], vs[j])
  }

  /**
   * `sort_by_key(|v| v.timestamp)`: a stable sort, here an insertion sort that
   * moves a vote left only past votes with a strictly later timestamp.
   */
  method SortByTimestamp(a: array<Vote>)
    requires IdsAscending(a[..])
    modifies a
    ensures ChronoOrdered(a[..])
    ensures multiset(a[..]) == multiset(old(a[..]))
  {
    var i := 0;
    while i < a.Length
      invariant 0 <= i <= a.Length
      invariant forall p, q :: 0 <= p < q < i ==> Before(a[p], a[q])
      invariant forall p, q :: 0 <= p < q < a.Length && i <= q ==> a[p].id < a[q].id
      invariant multiset(a[..]) == multiset(old(a[..]))
    {
      InsertLeft(a, i);
      i := i + 1;
    }
  }

  /** One insertion step: moves `a[i]` left past the votes before it with a strictly later timestamp. */
  method InsertLeft(a: array<Vote>, i: nat)
    requires i < a.Length
    requires forall p, q :: 0 <= p < q < i ==> Before(a[p], a[q])
    requires forall p, q :: 0 <= p < q < a.Length && i <= q ==> a[p].id < a[q].id
    modifies a
    ensures forall p, q :: 0 <= p < q <= i ==> Before(a[p], a[q])
    ensures forall p, q :: 0 <= p < q < a.Length && i < q ==> a[p].id < a[q].id
    ensures multiset(a[..]) == multiset(old(a[..]))
  {
    var j := i;
    while j > 0 && a[j - 1].timestamp > a[j].timestamp
      invariant 0 <= j <= i
      invariant forall p, q :: 0 <= p < q <= i && p != j && q != j ==> Before(a[p], a[q])
      invariant forall q :: j < q <= i ==> Before(a[j], a[q])
      invariant forall p :: 0 <= p <= i && p != j ==> a[p].id < a[j].id
      invariant forall p, q :: 0 <= p < q < a.Length && i < q ==> a[p].id < a[q].id
      invariant multiset(a[..]) == multiset(old(a[..]))
    {
      Swap(a, j - 1, j);
      j := j - 1;
    }
    forall p | 0 <= p < j ensures Before(a[p], a[j]) {
      if p < j - 1 {
        assert Before(a[p], a[j - 1]);
      }
    }
  }

  method Swap(a: array<Vote>, i: nat, j: nat)
    requires i < j < a.Length
    modifies a
    ensures a[i] == old(a[j]) && a[j] == old(a[i])
    ensures forall k :: 0 <= k < a.Length && k != i && k != j ==> a[k] == old(a[k])
    ensures multiset(a[..]) == multiset(old(a[..]))
  {
    a[i], a[j] := a[j], a[i];
  }

  // ---------------------------------------------------------------------------
  // The store
  // ---------------------------------------------------------------------------

  /** The canister's state: the id counter (`ID_COUNTER`) and the map from id to vote (`VOTES`). */
  class VoteStore {
    var counter: nat
    var votes: map<nat, Vote>

    /** Every vote is stored under its own id, and every id is below the counter. */
    ghost predicate Valid()
      reads this
    {
      forall k :: k in votes ==> votes[k].id == k && k < counter
    }

    constructor ()
      ensures Valid()
      ensures counter == 0 && votes == map[]
    {
      counter := 0;
      votes := map[];
    }

    ghost function CandidateSet(): set<string>
      reads this
    {
      set v | v in votes.Values :: v.candidate
    }

    /**
     * `counter.set(current_value + 1)`: the cell returns its previous value,
     * which becomes the new id.
     */
    method NextId() returns (id: nat)
      modifies this`counter
      ensures id == old(counter) && counter == old(counter) + 1
    {
      id := counter;
      counter := counter + 1;
    }

    /** `insert`: stores a vote under its id. */
    method Insert(vote: Vote)
      modifies this`votes
      ensures votes == old(votes)[vote.id := vote]
    {
      votes := votes[vote.id := vote];
    }

    /** `add_vote`: stores a new vote under a fresh id, stamped with the current time. */
    method AddVote(candidate: string, voter: string, now: nat) returns (r: Result<Vote, Error>)
      requires Valid()
      modifies this
      ensures Valid()
      ensures r == Ok(Vote(old(counter), candidate, voter, now))
      ensures counter == old(counter) + 1
      ensures votes == old(votes)[old(counter) := r.value]
      ensures forall k :: k in old(votes) ==> k < r.value.id
    {
      var id := NextId();
      var vote := Vote(id, candidate, voter, now);
      Insert(vote);
      r := Ok(vote);
    }

    /** `update_vote`: replaces the candidate, voter and timestamp of a stored vote, keeping its id. */
    method UpdateVote(id: nat, candidate: string, voter: string, now: nat) returns (r: Result<Vote, Error>)
      requires Valid()
      modifies this
      ensures Valid()
      ensures counter == old(counter)
      ensures id !in old(votes) ==> r == Err(VoteNotFoundError) && votes == old(votes)
      ensures id in old(votes) ==> r == Ok(Vote(id, candidate, voter, now)) && votes == old(votes)[id := r.value]
    {
      if id !in votes {
        return Err(VoteNotFoundError);
      }
      var vote := votes[id];
      vote := vote.(candidate := candidate, voter := voter, timestamp := now);
      Insert(vote);
      r := Ok(vote);
    }

    /** `delete_vote`: removes a stored vote and returns it. */
    method DeleteVote(id: nat) returns (r: Result<Vote, Error>)
      requires Valid()
      modifies this
      ensures Valid()
      ensures counter == old(counter)
      ensures id !in old(votes) ==> r == Err(VoteNotFoundError) && votes == old(votes)
      ensures id in old(votes) ==> r == Ok(old(votes)[id]) && votes == old(votes) - {id}
    {
      // BTreeMap::remove hands back what was stored, if anything
      var removed := if id in votes then Some(votes[id]) else None;
      votes := votes - {id};
      match removed
      case None => r := Err(VoteNotFoundError);
      case Some(v) => r := Ok(v);
    }

    /** `clear_votes`: collects the ids of all votes, then removes them one by one. */
    method ClearVotes() returns (r: Result<(), Error>)
      requires Valid()
      modifies this
      ensures Valid()
      ensures r == Ok(())
      ensures votes == map[] && TotalVotes() == 0
      ensures counter == old(counter)
    {
      var keys := Ids(Votes());
      StoredIdsListed();
      RemoveEach(keys);
      assert votes.Keys == {};
      r := Ok(());
    }

    /** The loop of `clear_votes`: removes each listed key from the map in turn. */
    method RemoveEach(keys: seq<nat>)
      modifies this`votes
      ensures forall k :: k in votes <==> k in old(votes) && k !in keys
      ensures forall k :: k in votes ==> votes[k] == old(votes)[k]
    {
      var i := 0;
      while i < |keys|
        invariant 0 <= i <= |keys|
        invariant forall k :: k in votes <==> k in old(votes) && k !in keys[..i]
        invariant forall k :: k in votes ==> votes[k] == old(votes)[k]
      {
        votes := votes - {keys[i]};
        assert keys[..i + 1] == keys[..i] + [keys[i]];
        i := i + 1;
      }
      assert keys[..i] == keys;
    }

    /** Every stored id occurs among the ids of the listing. */
    lemma StoredIdsListed()
      requires Valid()
      ensures forall k :: k in votes ==> k in Ids(Votes())
    {
      var vs := Votes();
      forall k | k in votes ensures k in Ids(vs) {
        assert votes[k] in vs;
        var i :| 0 <= i < |vs| && vs[i] == votes[k];
        assert Ids(vs)[i] == k;
      }
    }

    /** `get_votes`: every stored vote, in ascending id order. */
    function Votes(): (r: seq<Vote>)
      reads this
      requires Valid()
      ensures |r| == |votes|
      ensures IdsAscending(r)
      ensures forall v :: v in r <==> v in votes.Values
    {
      KeyOrder.ValuesBelowComplete(votes, counter);
      var ks := KeyOrder.KeysBelow(votes, counter);
      var r := KeyOrder.ValuesBelow(votes, counter);
      assert forall i :: 0 <= i < |r| ==> r[i].id == ks[i];
      r
    }

    /** `total_votes`: the number of stored votes. */
    function TotalVotes(): (n: nat)
      reads this
      requires Valid()
      ensures n == |Votes()|
    {
      |votes|
    }

    /** `get_votes_by_candidate`: the stored votes for one candidate, in ascending id order. */
    function VotesByCandidate(candidate: string): (r: seq<Vote>)
      reads this
      requires Valid()
      ensures forall v :: v in r <==> v in votes.Values && v.candidate == candidate
      ensures IdsAscending(r)
    {
      Select(Votes(), CandidateIs(candidate))
    }

    /** `get_votes_by_voter`: the stored votes cast by one voter, in ascending id order. */
    function VotesByVoter(voter: string): (r: seq<Vote>)
      reads this
      requires Valid()
      ensures forall v :: v in r <==> v in votes.Values && v.voter == voter
      ensures IdsAscending(r)
    {
      Select(Votes(), VoterIs(voter))
    }

    /** `get_votes_in_time_range`: both bounds inclusive. */
    function VotesInTimeRange(start: nat, end: nat): (r: seq<Vote>)
      reads this
      requires Valid()
      ensures forall v :: v in r <==> v in votes.Values && start <= v.timestamp <= end
      ensures IdsAscending(r)
    {
      Select(Votes(), WithinTime(start, end))
    }

    /** An empty range selects nothing; it is not an error. */
    lemma EmptyTimeRange(start: nat, end: nat)
      requires Valid()
      requires start > end
      ensures VotesInTimeRange(start, end) == []
    {
      SelectNone(Votes(), WithinTime(start, end));
    }

    /** `get_latest_vote_timestamp`: the largest timestamp, 0 for an empty store. */
    function LatestVoteTimestamp(): (t: nat)
      reads this
      requires Valid()
      ensures votes == map[] ==> t == 0
      ensures forall v :: v in votes.Values ==> v.timestamp <= t
      ensures votes != map[] ==> exists v :: v in votes.Values && v.timestamp == t
    {
      MaxTimestamp(Votes()).UnwrapOr(0)
    }

    /** `get_candidates`: every candidate that has a vote, once each, in no particular order. */
    method Candidates() returns (r: seq<string>)
      requires Valid()
      ensures Distinct(r)
      ensures forall c :: c in r <==> c in CandidateSet()
    {
      var vs := Votes();
      var seen := MarkCandidates(vs);
      r := KeysOf(seen);
      forall c | c in CandidateSet() ensures c in seen {
        var v :| v in votes.Values && v.candidate == c;
        assert v in vs;
      }
    }

    /** The candidates of the listing are those of the store. */
    lemma ListingCandidates(vs: seq<Vote>)
      requires Valid()
      requires vs == Votes()
      ensures forall c :: (exists k :: 0 <= k < |vs| && vs[k].candidate == c) <==> c in CandidateSet()
    {
      forall c | c in CandidateSet() ensures exists k :: 0 <= k < |vs| && vs[k].candidate == c {
        var v :| v in votes.Values && v.candidate == c;
        var k :| 0 <= k < |vs| && vs[k] == v;
      }
      forall k | 0 <= k < |vs| ensures vs[k].candidate in CandidateSet() {
        assert vs[k] in votes.Values;
      }
    }

    /** `get_all_candidate_votes`: the number of votes of each candidate that has one. */
    method CandidateVotes() returns (counts: map<string, nat>)
      requires Valid()
      ensures forall c :: c in counts <==> c in CandidateSet()
      ensures forall c :: c in counts ==> counts[c] == |VotesByCandidate(c)| && counts[c] >= 1
    {
      var vs := Votes();
      counts := Tally(vs);
      forall c ensures c in counts <==> c in CandidateSet() {
        CountPositive(vs, c);
      }
    }

    /** `get_most_voted_candidate`: a candidate with no fewer votes than any other. */
    method MostVotedCandidate() returns (r: Result<string, Error>)
      requires Valid()
      ensures r.Err? <==> votes == map[]
      ensures r.Err? ==> r.error == InsertFailed
      ensures r.Ok? ==> r.value in CandidateSet()
      ensures r.Ok? ==> forall c :: c in CandidateSet() ==> |VotesByCandidate(c)| <= |VotesByCandidate(r.value)|
    {
      var counts := CandidateVotes();
      var best := MaxByCount(counts);
      EmptyStoreNoCandidates();
      match best
      case None => r := Err(InsertFailed);
      case Some(c) => r := Ok(c);
    }

    /** `get_least_voted_candidate`: a candidate with no more votes than any other. */
    method LeastVotedCandidate() returns (r: Result<string, Error>)
      requires Valid()
      ensures r.Err? <==> votes == map[]
      ensures r.Err? ==> r.error == InsertFailed
      ensures r.Ok? ==> r.value in CandidateSet()
      ensures r.Ok? ==> forall c :: c in CandidateSet() ==> |VotesByCandidate(r.value)| <= |VotesByCandidate(c)|
    {
      var counts := CandidateVotes();
      var best := MinByCount(counts);
      EmptyStoreNoCandidates();
      match best
      case None => r := Err(InsertFailed);
      case Some(c) => r := Ok(c);
    }

    lemma EmptyStoreNoCandidates()
      ensures votes == map[] <==> CandidateSet() == {}
    {
      if votes != map[] {
        var k :| k in votes;
        assert votes[k].candidate in CandidateSet();
      }
    }

    /** `get_votes_sorted_by_timestamp`: all votes, stably sorted by timestamp. */
    method VotesSortedByTimestamp() returns (r: seq<Vote>)
      requires Valid()
      ensures multiset(r) == multiset(Votes())
      ensures forall i, j :: 0 <= i < j < |r| ==> r[i].timestamp <= r[j].timestamp
      ensures forall i, j :: 0 <= i < j < |r| && r[i].timestamp == r[j].timestamp ==> r[i].id < r[j].id
    {
      var vs := Votes();
      var a := new Vote[|vs|](i requires 0 <= i < |vs| => vs[i]);
      assert a[..] == vs;
      SortByTimestamp(a);
      r := a[..];
      assert ChronoOrdered(r);
    }

    /** The per-candidate counts add up to the number of votes. */
    lemma {:induction false} CandidateCountsSum(cs: seq<string>)
      requires Valid()
      requires Distinct(cs)
      requires forall c :: c in cs <==> c in CandidateSet()
      ensures SumCounts(Votes(), cs) == TotalVotes()
    {
      var vs := Votes();
      ListingCandidates(vs);
      forall v | v in vs ensures v.candidate in cs {
        var k :| 0 <= k < |vs| && vs[k] == v;
      }
      SumCountsCoversAll(vs, cs);
    }
  }

  /** The ids of a listing of votes, in listing order. */
  function Ids(vs: seq<Vote>): (ks: seq<nat>)
    ensures |ks| == |vs|
    ensures forall i :: 0 <= i < |vs| ==> ks[i] == vs[i].id
  {
    seq(|vs|, i requires 0 <= i < |vs| => vs[i].id)
  }

  /** The loop of `get_candidates`: marks every candidate of the listing in a map. */
  method MarkCandidates(vs: seq<Vote>) returns (seen: map<string, bool>)
    ensures forall c :: c in seen <==> exists v :: v in vs && v.candidate == c
  {
    seen := map[];
    var i := 0;
    while i < |vs|
      invariant 0 <= i <= |vs|
      invariant forall c :: c in seen <==> exists k :: 0 <= k < i && vs[k].candidate == c
    {
      seen := seen[vs[i].candidate := true];
      i := i + 1;
    }
    forall c | c in seen ensures exists v :: v in vs && v.candidate == c {
      var k :| 0 <= k < i && vs[k].candidate == c;
      assert vs[k] in vs;
    }
  }

  /**
   * The counting loop shared by `get_all_candidate_votes` and the most and
   * least voted queries: one pass over the listing, bumping the candidate's
   * entry (`entry(c).or_insert(0)`, then `+= 1`).
   */
  method Tally(vs: seq<Vote>) returns (counts: map<string, nat>)
    ensures Tallied(counts, vs)
  {
    counts := map[];
    var i := 0;
    while i < |vs|
      invariant 0 <= i <= |vs|
      invariant Tallied(counts, vs[..i])
    {
      var c := vs[i].candidate;
      var n := if c in counts then counts[c] else 0;
      TallyStep(counts, vs[..i], vs[i]);
      counts := counts[c := n + 1];
      PrefixSnoc(vs, i);
      i := i + 1;
    }
    assert vs[..i] == vs;
  }

  /** The keys of a map, collected once each in no particular order (`HashMap::keys`). */
  method KeysOf<V>(m: map<string, V>) returns (ks: seq<string>)
    ensures Distinct(ks)
    ensures forall k :: k in ks <==> k in m
  {
    ks := [];
    var left := m.Keys;
    while left != {}
      invariant left <= m.Keys
      invariant Distinct(ks)
      invariant forall k :: k in ks <==> k in m && k !in left
      decreases left
    {
      var k :| k in left;
      ks := ks + [k];
      left := left - {k};
    }
  }

  /** Some key with the largest count, or `None` for an empty map (`max_by_key`). */
  method MaxByCount(counts: map<string, nat>) returns (r: Option<string>)
    ensures r.None? <==> counts == map[]
    ensures r.Some? ==> r.value in counts
    ensures r.Some? ==> forall c :: c in counts ==> counts[c] <= counts[r.value]
  {
    r := None;
    var left := counts.Keys;
    while left != {}
      invariant left <= counts.Keys
      invariant r.None? <==> left == counts.Keys
      invariant r.Some? ==> r.value in counts
      invariant r.Some? ==> forall c :: c in counts && c !in left ==> counts[c] <= counts[r.value]
      decreases left
    {
      var c :| c in left;
      if r.None? || counts[c] >= counts[r.value] {
        r := Some(c);
      }
      left := left - {c};
    }
  }

  /** Some key with the smallest count, or `None` for an empty map (`min_by_key`). */
  method MinByCount(counts: map<string, nat>) returns (r: Option<string>)
    ensures r.None? <==> counts == map[]
    ensures r.Some? ==> r.value in counts
    ensures r.Some? ==> forall c :: c in counts ==> counts[r.value] <= counts[c]
  {
    r := None;
    var left := counts.Keys;
    while left != {}
      invariant left <= counts.Keys
      invariant r.None? <==> left == counts.Keys
      invariant r.Some? ==> r.value in counts
      invariant r.Some? ==> forall c :: c in counts && c !in left ==> counts[r.value] <= counts[c]
      decreases left
    {
      var c :| c in left;
      if r.None? || counts[c] < counts[r.value] {
        r := Some(c);
      }
      left := left - {c};
    }
  }

  /**
   * Ids are never handed out twice: a vote added after its predecessor was
   * deleted and the whole store cleared still gets a larger id.
   */
  method FreshIdsAcrossClear(s: VoteStore, now: nat) returns (first: nat, second: nat)
    requires s.Valid()
    modifies s
    ensures s.Valid()
    ensures first < second
  {
    var a := s.AddVote("A", "v1", now);
    first := a.value.id;
    var d := s.DeleteVote(first);
    var c := s.ClearVotes();
    var b := s.AddVote("A", "v1", now);
    second := b.value.id;
  }
}
