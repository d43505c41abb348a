/**
 * What the Calculate stage's calibration cache means: the records grouped
 * by SysID, each group newest first, and the rule that picks the record in
 * effect at a given time from one group.
 */
module Calibration {
  import opened Types
  import opened Model

  /** The cache is not reloaded more often than once per this many milliseconds. */
  const MinCacheUpdateDelayMs: int := 5000

  /** The records of `cals` that belong to `id`, in their original order. */
  function Filter(cals: seq<Cal>, id: U64): (r: seq<Cal>)
    ensures |r| <= |cals|
    ensures forall c :: c in r ==> c in cals && c.sysID == id
  {
    if cals == [] then []
    else Filter(cals[..|cals| - 1], id) + (if cals[|cals| - 1].sysID == id then [cals[|cals| - 1]] else [])
  }

  /** A group holds every record of its SysID, as often as the input does, and nothing else. */
  lemma {:induction false} FilterCounts(cals: seq<Cal>, id: U64, c: Cal)
    ensures multiset(Filter(cals, id))[c] == if c.sysID == id then multiset(cals)[c] else 0
  {
    if cals != [] {
      var init := cals[..|cals| - 1];
      FilterCounts(init, id, c);
      assert cals == init + [cals[|cals| - 1]];
    }
  }

  /** A SysID has a group exactly when some record carries it. */
  lemma FilterNonEmpty(cals: seq<Cal>, id: U64)
    ensures Filter(cals, id) != [] <==> exists c :: c in cals && c.sysID == id
  {
    if c :| c in cals && c.sysID == id {
      FilterCounts(cals, id, c);
    }
    if Filter(cals, id) != [] {
      var c := Filter(cals, id)[0];
      FilterCounts(cals, id, c);
    }
  }

  /** Newest first: ValidFrom never increases along the sequence. */
  predicate SortedDesc(s: seq<Cal>)
  {
    forall i, j :: 0 <= i < j < |s| ==> s[i].validFrom >= s[j].validFrom
  }

  function InsertDesc(c: Cal, s: seq<Cal>): (r: seq<Cal>)
    ensures multiset(r) == multiset(s) + multiset{c}
    ensures r != [] && (r[0] == c || (s != [] && r[0] == s[0]))
  {
    if s == [] || c.validFrom >= s[0].validFrom then [c] + s
    else
      assert s == [s[0]] + s[1..];
      [s[0]] + InsertDesc(c, s[1..])
  }

  /** A record at least as new as every record of a newest-first group may head it. */
  lemma SortedCons(x: Cal, t: seq<Cal>)
    requires SortedDesc(t)
    requires forall j :: 0 <= j < |t| ==> x.validFrom >= t[j].validFrom
    ensures SortedDesc([x] + t)
  {
    forall i, j | 0 <= i < j < |t| + 1
      ensures ([x] + t)[i].validFrom >= ([x] + t)[j].validFrom
    {
      if i > 0 {
        assert ([x] + t)[i] == t[i - 1];
      }
      assert ([x] + t)[j] == t[j - 1];
    }
  }

  lemma {:induction false} InsertDescSorted(c: Cal, s: seq<Cal>)
    requires SortedDesc(s)
    ensures SortedDesc(InsertDesc(c, s))
  {
    if s == [] || c.validFrom >= s[0].validFrom {
      SortedCons(c, s);
    } else {
      var rest := s[1..];
      assert SortedDesc(rest);
      InsertDescSorted(c, rest);
      var t := InsertDesc(c, rest);
      forall j | 0 <= j < |t|
        ensures s[0].validFrom >= t[j].validFrom
      {
        assert t[j] in multiset(rest) + multiset{c};
        if t[j] != c {
          assert t[j] in rest;
        }
      }
      SortedCons(s[0], t);
    }
  }

  /**
   * Reorders a group newest first. The source sorts with sort.Slice, which
   * is not stable; any order with the same records and this ordering is an
   * equally valid outcome, which is why the cache is specified by IsCacheOf.
   */
  function SortDesc(s: seq<Cal>): (r: seq<Cal>)
    ensures multiset(r) == multiset(s)
    ensures SortedDesc(r)
  {
    if s == [] then []
    else
      assert s == [s[0]] + s[1..];
      InsertDescSorted(s[0], SortDesc(s[1..]));
      InsertDesc(s[0], SortDesc(s[1..]))
  }

  /**
   * `cache` is a calibration cache built from `cals`: one entry per SysID
   * that occurs, holding exactly that SysID's records, newest first.
   */
  ghost predicate IsCacheOf(cache: map<U64, seq<Cal>>, cals: seq<Cal>)
  {
    && (forall id :: id in cache <==> Filter(cals, id) != [])
    && (forall id :: id in cache ==> multiset(cache[id]) == multiset(Filter(cals, id)))
    && (forall id :: id in cache ==> SortedDesc(cache[id]))
  }

  /** The entries of a SysID; a missing key reads as the empty (nil) slice. */
  function Lookup(cache: map<U64, seq<Cal>>, id: U64): (r: seq<Cal>)
    ensures id in cache ==> r == cache[id]
    ensures id !in cache ==> r == []
  {
    if id in cache then cache[id] else []
  }

  /** A cached group holds each record exactly as often as the loaded records do, and only records of its SysID. */
  lemma CacheGroupsExactly(cache: map<U64, seq<Cal>>, cals: seq<Cal>, id: U64, c: Cal)
    requires IsCacheOf(cache, cals)
    ensures multiset(Lookup(cache, id))[c] == if c.sysID == id then multiset(cals)[c] else 0
  {
    FilterCounts(cals, id, c);
  }

  /** For a cache of `cals`: a record is in the group of `id` exactly when it is one of `cals` and carries `id`. */
  lemma CacheMembership(cache: map<U64, seq<Cal>>, cals: seq<Cal>, id: U64, c: Cal)
    requires IsCacheOf(cache, cals)
    ensures c in Lookup(cache, id) <==> c in cals && c.sysID == id
  {
    CacheGroupsExactly(cache, cals, id, c);
  }

  /** The cache's keys are exactly the SysIDs that occur in the loaded records. */
  lemma CacheKeys(cache: map<U64, seq<Cal>>, cals: seq<Cal>, id: U64)
    requires IsCacheOf(cache, cals)
    ensures id in cache <==> exists c :: c in cals && c.sysID == id
  {
    FilterNonEmpty(cals, id);
  }

  /** One more record of the input extends its SysID's group by that record and no other group. */
  lemma FilterSnoc(cals: seq<Cal>, i: nat, id: U64)
    requires i < |cals|
    ensures Filter(cals[..i + 1], id) == Filter(cals[..i], id) + (if cals[i].sysID == id then [cals[i]] else [])
  {
    assert cals[..i + 1][..i] == cals[..i];
  }

  /** The grouping loop: appends each record to the group of its SysID, in input order. */
  method GroupBySysID(cals: seq<Cal>) returns (groups: map<U64, seq<Cal>>)
    ensures forall id :: id in groups <==> Filter(cals, id) != []
    ensures forall id :: id in groups ==> groups[id] == Filter(cals, id)
  {
    groups := map[];
    var i := 0;
    while i < |cals|
      invariant 0 <= i <= |cals|
      invariant forall id :: id in groups <==> Filter(cals[..i], id) != []
      invariant forall id :: id in groups ==> groups[id] == Filter(cals[..i], id)
    {
      var cal := cals[i];
      groups := groups[cal.sysID := Lookup(groups, cal.sysID) + [cal]];
      forall id
        ensures Filter(cals[..i + 1], id) == Filter(cals[..i], id) + (if cal.sysID == id then [cal] else [])
      {
        FilterSnoc(cals, i, id);
      }
      i := i + 1;
    }
    assert cals[..|cals|] == cals;
  }

  /** The sorting loop: every group reordered newest first, keys and contents kept. */
  method SortGroups(groups: map<U64, seq<Cal>>) returns (sorted: map<U64, seq<Cal>>)
    ensures sorted.Keys == groups.Keys
    ensures forall id :: id in sorted ==> multiset(sorted[id]) == multiset(groups[id])
    ensures forall id :: id in sorted ==> SortedDesc(sorted[id])
  {
    sorted := groups;
    var unsorted := groups.Keys;
    while unsorted != {}
      invariant unsorted <= sorted.Keys == groups.Keys
      invariant forall id :: id in sorted ==> multiset(sorted[id]) == multiset(groups[id])
      invariant forall id :: id in sorted && id !in unsorted ==> SortedDesc(sorted[id])
      decreases unsorted
    {
      var id :| id in unsorted;
      sorted := sorted[id := SortDesc(sorted[id])];
      unsorted := unsorted - {id};
    }
  }

  /** Whether a lookup that misses the cache reloads it: not when the last load is under the delay ago. */
  predicate ShouldReload(cache: map<U64, seq<Cal>>, lastUpdate: int, id: U64, now: int)
  {
    id !in cache && !(now < lastUpdate + MinCacheUpdateDelayMs)
  }

  /**
   * How one lookup of `id` at clock `now` leaves the cache and its time
   * stamp, given what the store answers: rebuilt from the answer when the
   * lookup reloads and the store succeeds, as it was otherwise.
   */
  ghost predicate CacheAfterLookup(cache: map<U64, seq<Cal>>, lastUpdate: int, id: U64, now: int,
                                   answer: Result<seq<Cal>>, cache': map<U64, seq<Cal>>, lastUpdate': int)
  {
    if ShouldReload(cache, lastUpdate, id, now) && answer.Ok? then IsCacheOf(cache', answer.value) && lastUpdate' == now
    else cache' == cache && lastUpdate' == lastUpdate
  }

  /**
   * The calibration in effect at time `t` (milliseconds) according to a
   * group scanned from the front: the first record whose ValidFrom is not
   * after `t`; failing that the group's last record; and the zero record
   * for an empty group.
   */
  function Effective(entries: seq<Cal>, t: int): (r: Cal)
    ensures entries == [] ==> r == ZeroCal
    ensures entries != [] ==> r in entries
    ensures entries != [] ==> r.validFrom <= t || r == entries[|entries| - 1]
  {
    if entries == [] then ZeroCal
    else if entries[0].validFrom <= t || |entries| == 1 then entries[0]
    else Effective(entries[1..], t)
  }

  /** The scan picks the first record not newer than `t`. */
  lemma {:induction false} EffectiveIsFirstQualifying(entries: seq<Cal>, t: int, k: nat)
    requires k < |entries| && entries[k].validFrom <= t
    requires forall i :: 0 <= i < k ==> entries[i].validFrom > t
    ensures Effective(entries, t) == entries[k]
  {
    if k > 0 {
      EffectiveIsFirstQualifying(entries[1..], t, k - 1);
    }
  }

  /** When every record is newer than `t`, the scan leaves the last (in sorted order, the oldest) record behind. */
  lemma {:induction false} EffectiveWhenNoneQualifies(entries: seq<Cal>, t: int)
    requires entries != []
    requires forall i :: 0 <= i < |entries| ==> entries[i].validFrom > t
    ensures Effective(entries, t) == entries[|entries| - 1]
  {
    if |entries| > 1 {
      EffectiveWhenNoneQualifies(entries[1..], t);
    }
  }

  /**
   * On a group sorted newest first, the chosen record is the latest one
   * already valid at `t`: it is valid at `t` and no record valid at `t` is
   * newer.
   */
  lemma {:induction false} EffectiveIsLatestValid(entries: seq<Cal>, t: int)
    requires SortedDesc(entries)
    requires exists i :: 0 <= i < |entries| && entries[i].validFrom <= t
    ensures Effective(entries, t).validFrom <= t
    ensures forall i :: 0 <= i < |entries| && entries[i].validFrom <= t ==> entries[i].validFrom <= Effective(entries, t).validFrom
  {
    if entries[0].validFrom > t {
      var rest := entries[1..];
      assert SortedDesc(rest);
      var w :| 0 <= w < |entries| && entries[w].validFrom <= t;
      assert rest[w - 1].validFrom <= t;
      EffectiveIsLatestValid(rest, t);
      forall i | 0 <= i < |entries| && entries[i].validFrom <= t
        ensures entries[i].validFrom <= Effective(entries, t).validFrom
      {
        assert entries[i] == rest[i - 1];
      }
    }
  }

  /**
   * On a group sorted newest first, a time before every ValidFrom gets the
   * oldest record rather than none.
   */
  lemma EffectiveBeforeAll(entries: seq<Cal>, t: int)
    requires SortedDesc(entries) && entries != []
    requires t < entries[|entries| - 1].validFrom
    ensures Effective(entries, t) == entries[|entries| - 1]
    ensures forall i :: 0 <= i < |entries| ==> Effective(entries, t).validFrom <= entries[i].validFrom
  {
    EffectiveWhenNoneQualifies(entries, t);
  }

  /** The source's scan over a group: keep the current record and stop at the first one valid at `t`. */
  method ScanEntries(entries: seq<Cal>, t: int) returns (cal: Cal)
    ensures cal == Effective(entries, t)
  {
    cal := ZeroCal;
    var i := 0;
    while i < |entries|
      invariant 0 <= i <= |entries|
      invariant cal == if i == 0 then ZeroCal else entries[i - 1]
      invariant forall k :: 0 <= k < i ==> entries[k].validFrom > t
    {
      cal := entries[i];
      if t >= cal.validFrom {
        EffectiveIsFirstQualifying(entries, t, i);
        return;
      }
      i := i + 1;
    }
    if entries != [] {
      EffectiveWhenNoneQualifies(entries, t);
    }
  }
}
