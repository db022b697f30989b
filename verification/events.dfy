/**
 * The event filter and ranker (the body of getRelevantEvents after the
 * API call): keep the Warning and Error events in listing order, then
 * order them newest first with an in-place exchange sort.
 */
module EventRanking {
  import opened Wrappers
  import opened Types

  /** Only these two event types are kept; "Normal" and every other type is dropped. */
  predicate IsRelevantKind(kind: string) {
    kind == "Warning" || kind == "Error"
  }

  /** The Warning and Error events of a listing, in listing order. */
  function Relevant(listing: seq<Event>): (kept: seq<Event>)
    ensures |kept| <= |listing|
    ensures forall k | 0 <= k < |kept| :: IsRelevantKind(kept[k].kind)
    decreases |listing|
  {
    if listing == [] then []
    else
      var e := listing[|listing| - 1];
      var kept := Relevant(listing[..|listing| - 1]);
      if IsRelevantKind(e.kind) then kept + [e] else kept
  }

  /** The filter keeps every Warning and Error event as often as it occurs, and nothing else. */
  lemma {:induction false} RelevantCounts(listing: seq<Event>, e: Event)
    ensures multiset(Relevant(listing))[e] == if IsRelevantKind(e.kind) then multiset(listing)[e] else 0
    decreases |listing|
  {
    if listing != [] {
      var init := listing[..|listing| - 1];
      RelevantCounts(init, e);
      assert listing == init + [listing[|listing| - 1]];
    }
  }

  /** A listing of only Normal events leaves nothing to show. */
  lemma {:induction false} NoRelevantEvents(listing: seq<Event>)
    requires forall k | 0 <= k < |listing| :: !IsRelevantKind(listing[k].kind)
    ensures Relevant(listing) == []
    decreases |listing|
  {
    if listing != [] {
      NoRelevantEvents(listing[..|listing| - 1]);
    }
  }

  /** Appends the events of relevant type one by one, as the plugin's loop does. */
  method CollectRelevant(listing: seq<Event>) returns (kept: seq<Event>)
    ensures kept == Relevant(listing)
  {
    kept := [];
    for i := 0 to |listing|
      invariant kept == Relevant(listing[..i])
    {
      assert listing[..i + 1][..i] == listing[..i];
      if IsRelevantKind(listing[i].kind) {
        kept := kept + [listing[i]];
      }
    }
    assert listing[..|listing|] == listing;
  }

  /** Most recent first: no event comes before one with a later timestamp. */
  ghost predicate NewestFirst(s: seq<Event>) {
    forall p, q | 0 <= p < q < |s| :: s[q].timestamp <= s[p].timestamp
  }

  /** The first `i` positions hold the `i` latest events, newest first. */
  ghost predicate Settled(s: seq<Event>, i: int) {
    forall p, q | 0 <= p < q < |s| && p < i :: s[q].timestamp <= s[p].timestamp
  }

  /** Exchanges the events at positions `i` and `j`; `SwapKeepsOthers` states that nothing else moves. */
  function Swap(s: seq<Event>, i: nat, j: nat): (r: seq<Event>)
    requires i < |s| && j < |s|
    ensures |r| == |s| && r[i] == s[j] && r[j] == s[i]
  {
    s[i := s[j]][j := s[i]]
  }

  /** Every position other than the two exchanged keeps its event. */
  lemma SwapKeepsOthers(s: seq<Event>, i: nat, j: nat)
    requires i < |s| && j < |s|
    ensures forall k | 0 <= k < |s| && k != i && k != j :: Swap(s, i, j)[k] == s[k]
  {
  }

  /** An exchange is a permutation and leaves the events before the first position alone. */
  lemma SwapIsPermutation(s: seq<Event>, i: nat, j: nat)
    requires i < j < |s|
    ensures multiset(Swap(s, i, j)) == multiset(s)
    ensures Swap(s, i, j)[..i] == s[..i]
  {
    var r1 := s[i := s[j]];
    assert multiset(r1) == multiset(s) - multiset{s[i]} + multiset{s[j]};
    assert r1[j] == s[j];
    assert multiset(r1[j := s[i]]) == multiset(r1) - multiset{s[j]} + multiset{s[i]};
    assert Swap(s, i, j)[..i] == s[..i];
  }

  /**
   * One inner pass from position `j` on: whenever position `i` holds an
   * older event than position `j`, the two are exchanged.
   */
  function InnerPass(s: seq<Event>, i: nat, j: nat): (r: seq<Event>)
    requires i < j <= |s|
    ensures |r| == |s|
    decreases |s| - j
  {
    if j == |s| then s
    else InnerPass(if s[i].timestamp < s[j].timestamp then Swap(s, i, j) else s, i, j + 1)
  }

  /** The outer passes from position `i` on. */
  function OuterPass(s: seq<Event>, i: nat): (r: seq<Event>)
    requires i <= |s|
    ensures |r| == |s|
    decreases |s| - i
  {
    if i + 1 >= |s| then s else OuterPass(InnerPass(s, i, i + 1), i + 1)
  }

  /** The exchange sort as the plugin runs it, on a sequence. */
  function ExchangeSort(s: seq<Event>): (r: seq<Event>)
    ensures |r| == |s|
  {
    OuterPass(s, 0)
  }

  /** An inner pass permutes the events. */
  lemma {:induction false} InnerPassPermutes(s: seq<Event>, i: nat, j: nat)
    requires i < j <= |s|
    ensures multiset(InnerPass(s, i, j)) == multiset(s)
    decreases |s| - j
  {
    if j < |s| {
      var s' := if s[i].timestamp < s[j].timestamp then Swap(s, i, j) else s;
      if s[i].timestamp < s[j].timestamp {
        SwapIsPermutation(s, i, j);
      }
      assert multiset(s') == multiset(s);
      InnerPassPermutes(s', i, j + 1);
      assert InnerPass(s, i, j) == InnerPass(s', i, j + 1);
    }
  }

  /** An inner pass leaves the events before position `i` alone. */
  lemma {:induction false} InnerPassKeepsPrefix(s: seq<Event>, i: nat, j: nat)
    requires i < j <= |s|
    ensures InnerPass(s, i, j)[..i] == s[..i]
    decreases |s| - j
  {
    if j < |s| {
      var s' := if s[i].timestamp < s[j].timestamp then Swap(s, i, j) else s;
      if s[i].timestamp < s[j].timestamp {
        SwapIsPermutation(s, i, j);
      }
      InnerPassKeepsPrefix(s', i, j + 1);
      assert InnerPass(s, i, j) == InnerPass(s', i, j + 1);
    }
  }

  /**
   * An inner pass leaves at position `i` the latest of the events from `i`
   * on, given that the ones it has already passed are no later.
   */
  lemma {:induction false} InnerPassSelectsLatest(s: seq<Event>, i: nat, j: nat)
    requires i < j <= |s|
    requires forall k | i < k < j :: s[k].timestamp <= s[i].timestamp
    ensures forall k | i < k < |s| :: InnerPass(s, i, j)[k].timestamp <= InnerPass(s, i, j)[i].timestamp
    decreases |s| - j
  {
    if j < |s| {
      var s' := if s[i].timestamp < s[j].timestamp then Swap(s, i, j) else s;
      assert forall k | i < k < j + 1 :: s'[k].timestamp <= s'[i].timestamp;
      InnerPassSelectsLatest(s', i, j + 1);
      assert InnerPass(s, i, j) == InnerPass(s', i, j + 1);
    }
  }

  /** Events in the part of `s'` from `i` on are events of the part of `s` from `i` on. */
  lemma SamePrefixSameSuffix(s: seq<Event>, s': seq<Event>, i: nat, q: nat)
    requires i <= q < |s| == |s'|
    requires multiset(s') == multiset(s) && s'[..i] == s[..i]
    ensures exists q' | i <= q' < |s| :: s[q'] == s'[q]
  {
    assert s == s[..i] + s[i..];
    assert s' == s'[..i] + s'[i..];
    assert multiset(s) == multiset(s[..i]) + multiset(s[i..]) by {
      assert multiset(s[..i] + s[i..]) == multiset(s[..i]) + multiset(s[i..]);
    }
    assert multiset(s') == multiset(s'[..i]) + multiset(s'[i..]) by {
      assert multiset(s'[..i] + s'[i..]) == multiset(s'[..i]) + multiset(s'[i..]);
    }
    assert multiset(s'[..i]) == multiset(s[..i]);
    forall e ensures multiset(s'[i..])[e] == multiset(s[i..])[e] {
      assert multiset(s')[e] == multiset(s'[..i])[e] + multiset(s'[i..])[e];
      assert multiset(s)[e] == multiset(s[..i])[e] + multiset(s[i..])[e];
    }
    assert multiset(s'[i..]) == multiset(s[i..]);
    assert s'[q] == s'[i..][q - i];
    assert s'[q] in multiset(s[i..]);
    var k :| 0 <= k < |s[i..]| && s[i..][k] == s'[q];
    assert s[i + k] == s'[q];
  }

  /** One outer step extends the settled prefix by one position. */
  lemma OuterStepSettles(s: seq<Event>, i: nat)
    requires i + 1 < |s| && Settled(s, i)
    ensures Settled(InnerPass(s, i, i + 1), i + 1)
    ensures multiset(InnerPass(s, i, i + 1)) == multiset(s)
  {
    var s' := InnerPass(s, i, i + 1);
    InnerPassPermutes(s, i, i + 1);
    InnerPassKeepsPrefix(s, i, i + 1);
    InnerPassSelectsLatest(s, i, i + 1);
    forall p, q | 0 <= p < q < |s'| && p < i + 1
      ensures s'[q].timestamp <= s'[p].timestamp
    {
      if p < i {
        assert s'[p] == s'[..i][p] == s[p];
        if q < i {
          assert s'[q] == s'[..i][q] == s[q];
        } else {
          SamePrefixSameSuffix(s, s', i, q);
        }
      }
    }
  }

  /** The outer passes from a settled prefix on leave the events newest first, a permutation of their input. */
  lemma {:induction false} OuterPassSorts(s: seq<Event>, i: nat)
    requires i <= |s| && Settled(s, i)
    ensures NewestFirst(OuterPass(s, i))
    ensures multiset(OuterPass(s, i)) == multiset(s)
    decreases |s| - i
  {
    if i + 1 < |s| {
      OuterStepSettles(s, i);
      OuterPassSorts(InnerPass(s, i, i + 1), i + 1);
    }
  }

  /** The exchange sort orders the events newest first and keeps each of them exactly once. */
  lemma ExchangeSortSorts(s: seq<Event>)
    ensures NewestFirst(ExchangeSort(s))
    ensures multiset(ExchangeSort(s)) == multiset(s)
  {
    OuterPassSorts(s, 0);
  }

  /** Ranking the filtered events leaves only Warning and Error events. */
  lemma RankedEventsAreRelevant(listing: seq<Event>)
    ensures forall k | 0 <= k < |ExchangeSort(Relevant(listing))| :: IsRelevantKind(ExchangeSort(Relevant(listing))[k].kind)
  {
    var kept := Relevant(listing);
    var ranked := ExchangeSort(kept);
    ExchangeSortSorts(kept);
    forall k | 0 <= k < |ranked|
      ensures IsRelevantKind(ranked[k].kind)
    {
      assert ranked[k] in multiset(ranked);
      assert ranked[k] in kept;
    }
  }

  /**
   * The exchange sort is not stable: A and B share a timestamp, come in
   * the order A, B, and leave in the order B, A.
   */
  lemma ExchangeSortReordersTies()
    ensures var a := Event("Warning", "A", "", 1);
            var b := Event("Warning", "B", "", 1);
            var c := Event("Warning", "C", "", 2);
            ExchangeSort([a, b, c]) == [c, b, a]
  {
    var a := Event("Warning", "A", "", 1);
    var b := Event("Warning", "B", "", 1);
    var c := Event("Warning", "C", "", 2);
    var s0 := [a, b, c];
    assert InnerPass(s0, 0, 1) == InnerPass(s0, 0, 2);
    var s1 := Swap(s0, 0, 2);
    assert s1 == [c, b, a];
    assert InnerPass(s0, 0, 2) == InnerPass(s1, 0, 3) == s1;
    assert InnerPass(s1, 1, 2) == InnerPass(s1, 1, 3) == s1;
    assert OuterPass(s1, 2) == s1;
  }

  /** The plugin's nested exchange loops, in place on the array of events. */
  method RankEvents(a: array<Event>)
    modifies a
    ensures a[..] == ExchangeSort(old(a[..]))
    ensures NewestFirst(a[..]) && multiset(a[..]) == multiset(old(a[..]))
  {
    ghost var original := a[..];
    var n := a.Length;
    var i := 0;
    while i < n - 1
      invariant 0 <= i <= n
      invariant OuterPass(a[..], i) == ExchangeSort(original)
    {
      ghost var start := a[..];
      var j := i + 1;
      while j < n
        invariant i + 1 <= j <= n
        invariant InnerPass(a[..], i, j) == InnerPass(start, i, i + 1)
      {
        ghost var before := a[..];
        if a[i].timestamp < a[j].timestamp {
          a[i], a[j] := a[j], a[i];
          assert a[..] == Swap(before, i, j);
        }
        assert InnerPass(before, i, j) == InnerPass(a[..], i, j + 1);
        j := j + 1;
      }
      assert a[..] == InnerPass(start, i, i + 1);
      i := i + 1;
    }
    ExchangeSortSorts(original);
  }

  /**
   * The pure part of getRelevantEvents: a failed listing is passed on as
   * the error; otherwise the Warning and Error events, newest first.
   */
  method GetRelevantEvents(listing: Result<seq<Event>, string>) returns (ranked: Result<seq<Event>, string>)
    ensures listing.Failure? ==> ranked == listing
    ensures listing.Success? ==> ranked == Success(ExchangeSort(Relevant(listing.value)))
    ensures ranked.Success? ==>
      NewestFirst(ranked.value) && multiset(ranked.value) == multiset(Relevant(listing.value))
  {
    if listing.Failure? {
      return listing;
    }
    var kept := CollectRelevant(listing.value);
    var a := new Event[|kept|](k requires 0 <= k < |kept| => kept[k]);
    assert a[..] == kept;
    RankEvents(a);
    ranked := Success(a[..]);
  }
}
