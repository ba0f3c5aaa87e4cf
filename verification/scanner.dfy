/**
 * The duplicate scanner (cDuplicateRecordingScannerThread): one pass builds a
 * record per library recording, groups the records that have a description
 * greedily around seeds, collects the others in one catch-all group, and
 * publishes the result unless the library changed meanwhile.
 *
 * The thread, its sleeps and the library lock are not modelled: what the
 * pass learns from them at each check is an oracle `probe`, and the
 * library's change counter is a number.
 */
module Scanner {
  import opened Visibility
  import opened Config
  import opened Recording
  import opened Published

  // ---- building the records ----

  /** A record as the constructor leaves it: unchecked, nothing read, no member list. */
  predicate Fresh(r: DupRecord)
  {
    !r.checked && r.vis.state == Unknown && r.duplicates == Null
  }

  /** The records with a description, in library order. */
  function Described(lib: seq<RecordingInfo>, cfg: Settings): (recs: seq<DupRecord>)
    ensures |recs| <= |lib|
    ensures forall k :: 0 <= k < |recs| ==> Fresh(recs[k]) && recs[k].description != ""
  {
    if lib == [] then []
    else
      var r := FromRecording(lib[|lib| - 1], cfg);
      Described(lib[..|lib| - 1], cfg) + (if HasDescription(r) then [r] else [])
  }

  /** The records without a description that the catch-all group takes. */
  function Undescribed(lib: seq<RecordingInfo>, cfg: Settings, markers: set<Path>): (recs: seq<DupRecord>)
    ensures |recs| <= |lib|
    ensures forall k :: 0 <= k < |recs| ==>
      Fresh(recs[k]) && recs[k].description == "" &&
      (cfg.showHidden || recs[k].vis.markerPath !in markers)
  {
    if lib == [] then []
    else
      var r := FromRecording(lib[|lib| - 1], cfg);
      Undescribed(lib[..|lib| - 1], cfg, markers) +
      (if !HasDescription(r) && (cfg.showHidden || ReadState(r.vis, markers) != Hidden) then [r] else [])
  }

  /**
   * The first loop of `Scan`: each recording becomes a record; those with a
   * description are kept for grouping, the others go to the catch-all unless
   * they read hidden while hidden records are not shown.  That read is made on
   * a copy of the record's visibility, so the records keep an unknown cache.
   */
  method BuildRecords(lib: seq<RecordingInfo>, cfg: Settings, markers: set<Path>)
    returns (recs: seq<DupRecord>, undescribed: seq<DupRecord>)
    ensures recs == Described(lib, cfg)
    ensures undescribed == Undescribed(lib, cfg, markers)
  {
    recs, undescribed := [], [];
    for k := 0 to |lib|
      invariant recs == Described(lib[..k], cfg)
      invariant undescribed == Undescribed(lib[..k], cfg, markers)
    {
      var item := NewRecord(lib[k], cfg);
      BuildStep(lib, k, cfg, markers);
      if HasDescription(item) {
        recs := recs + [item];
      } else if cfg.showHidden || ReadState(item.vis, markers) != Hidden {
        undescribed := undescribed + [item];
      }
    }
    assert lib[..|lib|] == lib;
  }

  /** One recording of the first loop goes to exactly one of the lists, or to none when hidden. */
  lemma BuildStep(lib: seq<RecordingInfo>, k: nat, cfg: Settings, markers: set<Path>)
    requires k < |lib|
    ensures var r := FromRecording(lib[k], cfg);
      HasDescription(r) ==>
        Described(lib[..k + 1], cfg) == Described(lib[..k], cfg) + [r] &&
        Undescribed(lib[..k + 1], cfg, markers) == Undescribed(lib[..k], cfg, markers)
    ensures var r := FromRecording(lib[k], cfg);
      !HasDescription(r) && (cfg.showHidden || ReadState(r.vis, markers) != Hidden) ==>
        Described(lib[..k + 1], cfg) == Described(lib[..k], cfg) &&
        Undescribed(lib[..k + 1], cfg, markers) == Undescribed(lib[..k], cfg, markers) + [r]
    ensures var r := FromRecording(lib[k], cfg);
      !HasDescription(r) && !(cfg.showHidden || ReadState(r.vis, markers) != Hidden) ==>
        Described(lib[..k + 1], cfg) == Described(lib[..k], cfg) &&
        Undescribed(lib[..k + 1], cfg, markers) == Undescribed(lib[..k], cfg, markers)
  {
    var l := lib[..k + 1];
    assert l[..|l| - 1] == lib[..k] && l[|l| - 1] == lib[k];
  }

  // ---- the greedy grouping, as a reference on indices ----

  /** Record `j` duplicates record `i` (seed first, as the scanner asks). */
  predicate Dup(recs: seq<DupRecord>, i: nat, j: nat, cfg: Settings, markers: set<Path>)
    requires i < |recs| && j < |recs|
  {
    IsDuplicate(recs[i], recs[j], cfg, markers).dup
  }

  /** What seed `i` answers about each record of the list. */
  function Verdicts(recs: seq<DupRecord>, i: nat, cfg: Settings, markers: set<Path>): (ds: seq<bool>)
    requires i < |recs|
    ensures |ds| == |recs|
  {
    seq(|recs|, k requires 0 <= k < |recs| => Dup(recs, i, k, cfg, markers))
  }

  /** The positions from `j` on whose verdict is yes and that are not yet grouped (`C`). */
  function Joiners(ds: seq<bool>, j: nat, C: set<nat>): seq<nat>
    requires j <= |ds|
    decreases |ds| - j
  {
    if j == |ds| then []
    else (if j !in C && ds[j] then [j] else []) + Joiners(ds, j + 1, C)
  }

  function Elems(g: seq<nat>): set<nat>
  {
    set x | x in g
  }

  /** The group record `i` seeds when the records in `C` are grouped already. */
  function SeedGroup(recs: seq<DupRecord>, i: nat, C: set<nat>, cfg: Settings, markers: set<Path>): seq<nat>
    requires i < |recs|
  {
    [i] + Joiners(Verdicts(recs, i, cfg, markers), 0, C + {i})
  }

  /**
   * The groups seeded from index `i` on, `C` being the records already
   * grouped: an ungrouped record seeds a group of itself and its joiners.
   * Groups of one are included here; they are never published.
   */
  function ClustersFrom(recs: seq<DupRecord>, i: nat, C: set<nat>, cfg: Settings, markers: set<Path>): seq<seq<nat>>
    requires i <= |recs|
    decreases |recs| - i
  {
    if i == |recs| then []
    else if i in C then ClustersFrom(recs, i + 1, C, cfg, markers)
    else
      var g := SeedGroup(recs, i, C, cfg, markers);
      [g] + ClustersFrom(recs, i + 1, C + Elems(g), cfg, markers)
  }

  function Clusters(recs: seq<DupRecord>, cfg: Settings, markers: set<Path>): seq<seq<nat>>
  {
    ClustersFrom(recs, 0, {}, cfg, markers)
  }

  /** The groups that are published: more than one member, in the same order. */
  function Big(cl: seq<seq<nat>>): (b: seq<seq<nat>>)
    ensures |b| <= |cl|
    ensures forall k :: 0 <= k < |b| ==> |b[k]| > 1 && b[k] in cl
  {
    if cl == [] then []
    else Big(cl[..|cl| - 1]) + (if |cl[|cl| - 1]| > 1 then [cl[|cl| - 1]] else [])
  }

  lemma {:induction false} JoinersProps(ds: seq<bool>, j: nat, C: set<nat>)
    requires j <= |ds|
    ensures var js := Joiners(ds, j, C);
      (forall t :: 0 <= t < |js| ==> j <= js[t] < |ds| && js[t] !in C && ds[js[t]]) &&
      (forall t1, t2 :: 0 <= t1 < t2 < |js| ==> js[t1] < js[t2]) &&
      (forall k :: j <= k < |ds| && k !in C && ds[k] ==> k in js)
    decreases |ds| - j
  {
    if j < |ds| {
      JoinersProps(ds, j + 1, C);
    }
  }

  /** Record `k` is in one of the groups `cl`. */
  ghost predicate Grouped(cl: seq<seq<nat>>, k: nat)
  {
    exists c :: 0 <= c < |cl| && k in cl[c]
  }

  predicate InRange(g: seq<nat>, n: nat)
  {
    forall t :: 0 <= t < |g| ==> g[t] < n
  }

  predicate Increasing(g: seq<nat>)
  {
    forall t1, t2 :: 0 <= t1 < t2 < |g| ==> g[t1] < g[t2]
  }

  /**
   * A group as the greedy pass forms it from seed `g[0] >= i`: records of the
   * list, none of them in `C`, in list order, each matched by the seed.
   */
  predicate WellFormed(recs: seq<DupRecord>, g: seq<nat>, i: nat, C: set<nat>, cfg: Settings, markers: set<Path>)
  {
    |g| >= 1 && i <= g[0] && Increasing(g) && InRange(g, |recs|) &&
    (forall x :: x in g ==> x !in C) &&
    (forall t :: 0 < t < |g| ==> Dup(recs, g[0], g[t], cfg, markers))
  }

  predicate AllWellFormed(recs: seq<DupRecord>, cl: seq<seq<nat>>, i: nat, C: set<nat>, cfg: Settings, markers: set<Path>)
  {
    forall c :: 0 <= c < |cl| ==> WellFormed(recs, cl[c], i, C, cfg, markers)
  }

  /** The seed's group is well formed and takes every ungrouped record the seed matches. */
  lemma SeedGroupProps(recs: seq<DupRecord>, i: nat, C: set<nat>, cfg: Settings, markers: set<Path>)
    requires i < |recs| && i !in C
    requires forall k :: 0 <= k < i ==> k in C
    ensures WellFormed(recs, SeedGroup(recs, i, C, cfg, markers), i, C, cfg, markers)
    ensures SeedGroup(recs, i, C, cfg, markers)[0] == i
    ensures forall x :: x in SeedGroup(recs, i, C, cfg, markers) ==> x < |recs|
    ensures forall k :: 0 <= k < |recs| && k !in C && Dup(recs, i, k, cfg, markers) ==>
      k in SeedGroup(recs, i, C, cfg, markers)
  {
    var ds := Verdicts(recs, i, cfg, markers);
    var g := SeedGroup(recs, i, C, cfg, markers);
    SeedGroupShape(ds, i, C);
    forall t | 0 < t < |g| ensures Dup(recs, i, g[t], cfg, markers) {
      assert ds[g[t]];
    }
    forall k | 0 <= k < |recs| && k !in C && Dup(recs, i, k, cfg, markers) ensures k in g {
      assert ds[k];
    }
  }

  /** The seed's group on the verdicts alone. */
  lemma SeedGroupShape(ds: seq<bool>, i: nat, C: set<nat>)
    requires i < |ds| && i !in C
    requires forall k :: 0 <= k < i ==> k in C
    ensures var g := [i] + Joiners(ds, 0, C + {i});
      Increasing(g) && InRange(g, |ds|) &&
      (forall x :: x in g ==> x < |ds| && x !in C) &&
      (forall t :: 0 < t < |g| ==> ds[g[t]]) &&
      (forall k :: 0 <= k < |ds| && k !in C && ds[k] ==> k in g)
  {
    var js := Joiners(ds, 0, C + {i});
    JoinersProps(ds, 0, C + {i});
    forall t | 0 <= t < |js| ensures js[t] < |ds| && js[t] !in C && js[t] != i && ds[js[t]] {
      assert js[t] !in C + {i};
    }
    PrependSeed(ds, i, C, js);
  }

  /** Putting the seed in front of its joiners keeps them in order and outside `C`. */
  lemma PrependSeed(ds: seq<bool>, i: nat, C: set<nat>, js: seq<nat>)
    requires i < |ds| && i !in C
    requires forall k :: 0 <= k < i ==> k in C
    requires forall t :: 0 <= t < |js| ==> js[t] < |ds| && js[t] !in C && js[t] != i && ds[js[t]]
    requires forall t1, t2 :: 0 <= t1 < t2 < |js| ==> js[t1] < js[t2]
    requires forall k :: 0 <= k < |ds| && k !in C + {i} && ds[k] ==> k in js
    ensures var g := [i] + js;
      Increasing(g) && InRange(g, |ds|) &&
      (forall x :: x in g ==> x < |ds| && x !in C) &&
      (forall t :: 0 < t < |g| ==> ds[g[t]]) &&
      (forall k :: 0 <= k < |ds| && k !in C && ds[k] ==> k in g)
  {
    var g := [i] + js;
    forall t | 0 <= t < |js| ensures i < js[t] {
    }
    forall t | 0 < t < |g| ensures g[t] == js[t - 1] {
    }
    forall x | x in g ensures x < |ds| && x !in C {
      if x != i {
        var t :| 0 <= t < |js| && js[t] == x;
      }
    }
  }

  /** Every group seeded from `i` on is well formed. */
  lemma {:induction false} ClustersShape(recs: seq<DupRecord>, i: nat, C: set<nat>, cfg: Settings, markers: set<Path>)
    requires i <= |recs|
    requires forall k :: 0 <= k < i ==> k in C
    ensures AllWellFormed(recs, ClustersFrom(recs, i, C, cfg, markers), i, C, cfg, markers)
    decreases |recs| - i
  {
    var cl := ClustersFrom(recs, i, C, cfg, markers);
    if i == |recs| {
    } else if i in C {
      ClustersShape(recs, i + 1, C, cfg, markers);
    } else {
      var g := SeedGroup(recs, i, C, cfg, markers);
      var rest := ClustersFrom(recs, i + 1, C + Elems(g), cfg, markers);
      assert cl == [g] + rest;
      SeedGroupProps(recs, i, C, cfg, markers);
      ClustersShape(recs, i + 1, C + Elems(g), cfg, markers);
      forall c | 0 <= c < |cl| ensures WellFormed(recs, cl[c], i, C, cfg, markers) {
        if c > 0 {
          assert cl[c] == rest[c - 1];
          assert WellFormed(recs, rest[c - 1], i + 1, C + Elems(g), cfg, markers);
        }
      }
    }
  }

  /** Every record outside `C` from `i` on is in some group. */
  lemma {:induction false} ClustersCover(recs: seq<DupRecord>, i: nat, C: set<nat>, cfg: Settings, markers: set<Path>)
    requires i <= |recs|
    requires forall k :: 0 <= k < i ==> k in C
    ensures forall k :: 0 <= k < |recs| && k !in C ==> Grouped(ClustersFrom(recs, i, C, cfg, markers), k)
    decreases |recs| - i
  {
    var cl := ClustersFrom(recs, i, C, cfg, markers);
    if i == |recs| {
    } else if i in C {
      ClustersCover(recs, i + 1, C, cfg, markers);
    } else {
      var g := SeedGroup(recs, i, C, cfg, markers);
      var C2 := C + Elems(g);
      var rest := ClustersFrom(recs, i + 1, C2, cfg, markers);
      assert cl == [g] + rest;
      SeedGroupProps(recs, i, C, cfg, markers);
      ClustersCover(recs, i + 1, C2, cfg, markers);
      forall k | 0 <= k < |recs| && k !in C ensures Grouped(cl, k) {
        if k in g {
          assert k in cl[0];
        } else {
          assert k !in C2;
          assert Grouped(rest, k);
          var c :| 0 <= c < |rest| && k in rest[c];
          assert k in cl[c + 1];
        }
      }
    }
  }

  /** No record is in two groups. */
  predicate Disjoint(cl: seq<seq<nat>>)
  {
    forall c1, c2, x :: 0 <= c1 < c2 < |cl| && x in cl[c1] ==> x !in cl[c2]
  }

  /** Seeds come in list order. */
  predicate SeedsInOrder(cl: seq<seq<nat>>)
  {
    forall c1, c2 :: 0 <= c1 < c2 < |cl| && cl[c1] != [] && cl[c2] != [] ==> cl[c1][0] < cl[c2][0]
  }

  /** No seed matches a record of a later group. */
  predicate Greedy(recs: seq<DupRecord>, cl: seq<seq<nat>>, cfg: Settings, markers: set<Path>)
  {
    GreedyBy(cl, |recs|, DupOf(recs, cfg, markers))
  }

  /** `Dup` as a relation on all positions, false outside the list. */
  function DupOf(recs: seq<DupRecord>, cfg: Settings, markers: set<Path>): (nat, nat) -> bool
  {
    (a: nat, b: nat) => a < |recs| && b < |recs| && Dup(recs, a, b, cfg, markers)
  }

  /** No seed is related by `dup` to a record of a later group (positions below `n`). */
  predicate GreedyBy(cl: seq<seq<nat>>, n: nat, dup: (nat, nat) -> bool)
  {
    forall c1, c2, t :: 0 <= c1 < c2 < |cl| && cl[c1] != [] && cl[c1][0] < n && 0 <= t < |cl[c2]| && cl[c2][t] < n ==>
      !dup(cl[c1][0], cl[c2][t])
  }

  lemma {:induction false} ClustersDisjoint(recs: seq<DupRecord>, i: nat, C: set<nat>, cfg: Settings, markers: set<Path>)
    requires i <= |recs|
    requires forall k :: 0 <= k < i ==> k in C
    ensures Disjoint(ClustersFrom(recs, i, C, cfg, markers))
    decreases |recs| - i
  {
    var cl := ClustersFrom(recs, i, C, cfg, markers);
    if i == |recs| {
    } else if i in C {
      assert cl == ClustersFrom(recs, i + 1, C, cfg, markers);
      ClustersDisjoint(recs, i + 1, C, cfg, markers);
    } else {
      var g := SeedGroup(recs, i, C, cfg, markers);
      var C2 := C + Elems(g);
      var rest := ClustersFrom(recs, i + 1, C2, cfg, markers);
      assert cl == [g] + rest;
      ClustersDisjoint(recs, i + 1, C2, cfg, markers);
      ClustersShape(recs, i + 1, C2, cfg, markers);
      Outside(recs, rest, i + 1, C2, cfg, markers);
      DisjointCons(g, rest, C2);
    }
  }

  /** A group inside `C2` can go in front of disjoint groups made outside `C2`. */
  lemma DisjointCons(g: seq<nat>, rest: seq<seq<nat>>, C2: set<nat>)
    requires Disjoint(rest)
    requires forall c, t :: 0 <= c < |rest| && 0 <= t < |rest[c]| ==> rest[c][t] !in C2
    requires forall x :: x in g ==> x in C2
    ensures Disjoint([g] + rest)
  {
    var cl := [g] + rest;
    forall c1, c2, x | 0 <= c1 < c2 < |cl| && x in cl[c1] ensures x !in cl[c2] {
      assert cl[c2] == rest[c2 - 1];
      if c1 > 0 {
        assert cl[c1] == rest[c1 - 1];
      } else {
        assert x in C2;
      }
    }
  }

  lemma {:induction false} ClustersSeedOrder(recs: seq<DupRecord>, i: nat, C: set<nat>, cfg: Settings, markers: set<Path>)
    requires i <= |recs|
    requires forall k :: 0 <= k < i ==> k in C
    ensures SeedsInOrder(ClustersFrom(recs, i, C, cfg, markers))
    decreases |recs| - i
  {
    var cl := ClustersFrom(recs, i, C, cfg, markers);
    if i == |recs| {
    } else if i in C {
      assert cl == ClustersFrom(recs, i + 1, C, cfg, markers);
      ClustersSeedOrder(recs, i + 1, C, cfg, markers);
    } else {
      var g := SeedGroup(recs, i, C, cfg, markers);
      var C2 := C + Elems(g);
      var rest := ClustersFrom(recs, i + 1, C2, cfg, markers);
      assert cl == [g] + rest;
      SeedGroupProps(recs, i, C, cfg, markers);
      ClustersShape(recs, i + 1, C2, cfg, markers);
      ClustersSeedOrder(recs, i + 1, C2, cfg, markers);
      SeedsFrom(recs, rest, i + 1, C2, cfg, markers);
      SeedOrderCons(g, rest, i);
    }
  }

  /** Well-formed groups seeded from `i` on have their seeds at `i` or later. */
  lemma SeedsFrom(recs: seq<DupRecord>, cl: seq<seq<nat>>, i: nat, C: set<nat>, cfg: Settings, markers: set<Path>)
    requires AllWellFormed(recs, cl, i, C, cfg, markers)
    ensures forall c :: 0 <= c < |cl| ==> cl[c] != [] && i <= cl[c][0]
  {
    forall c | 0 <= c < |cl| ensures cl[c] != [] && i <= cl[c][0] {
      assert WellFormed(recs, cl[c], i, C, cfg, markers);
    }
  }

  /** A group seeded at `i` can go in front of groups seeded after `i`. */
  lemma SeedOrderCons(g: seq<nat>, rest: seq<seq<nat>>, i: nat)
    requires g != [] && g[0] == i
    requires SeedsInOrder(rest)
    requires forall c :: 0 <= c < |rest| ==> rest[c] != [] && i + 1 <= rest[c][0]
    ensures SeedsInOrder([g] + rest)
  {
    var cl := [g] + rest;
    forall c1, c2 | 0 <= c1 < c2 < |cl| && cl[c1] != [] && cl[c2] != [] ensures cl[c1][0] < cl[c2][0] {
      assert cl[c2] == rest[c2 - 1];
      if c1 > 0 {
        assert cl[c1] == rest[c1 - 1];
      }
    }
  }

  lemma {:induction false} ClustersGreedy(recs: seq<DupRecord>, i: nat, C: set<nat>, cfg: Settings, markers: set<Path>)
    requires i <= |recs|
    requires forall k :: 0 <= k < i ==> k in C
    ensures Greedy(recs, ClustersFrom(recs, i, C, cfg, markers), cfg, markers)
    decreases |recs| - i
  {
    var cl := ClustersFrom(recs, i, C, cfg, markers);
    if i == |recs| {
    } else if i in C {
      assert cl == ClustersFrom(recs, i + 1, C, cfg, markers);
      ClustersGreedy(recs, i + 1, C, cfg, markers);
    } else {
      var g := SeedGroup(recs, i, C, cfg, markers);
      var C2 := C + Elems(g);
      var rest := ClustersFrom(recs, i + 1, C2, cfg, markers);
      assert cl == [g] + rest;
      ClustersShape(recs, i + 1, C2, cfg, markers);
      ClustersGreedy(recs, i + 1, C2, cfg, markers);
      forall x | 0 <= x < |recs| && x !in C2 ensures !DupOf(recs, cfg, markers)(i, x) {
        SeedGroupProps(recs, i, C, cfg, markers);
      }
      assert g[0] == i;
      Outside(recs, rest, i + 1, C2, cfg, markers);
      GreedyCons(g, rest, |recs|, C2, DupOf(recs, cfg, markers));
    }
  }

  /** The records of well-formed groups lie in the list and outside `C`. */
  lemma Outside(recs: seq<DupRecord>, cl: seq<seq<nat>>, i: nat, C: set<nat>, cfg: Settings, markers: set<Path>)
    requires AllWellFormed(recs, cl, i, C, cfg, markers)
    ensures forall c, t :: 0 <= c < |cl| && 0 <= t < |cl[c]| ==> cl[c][t] < |recs| && cl[c][t] !in C
  {
    forall c, t | 0 <= c < |cl| && 0 <= t < |cl[c]| ensures cl[c][t] < |recs| && cl[c][t] !in C {
      assert WellFormed(recs, cl[c], i, C, cfg, markers);
      assert cl[c][t] in cl[c];
    }
  }

  /** A group whose seed relates to nothing outside `C2` can go in front of groups made outside `C2`. */
  lemma GreedyCons(g: seq<nat>, rest: seq<seq<nat>>, n: nat, C2: set<nat>, dup: (nat, nat) -> bool)
    requires g != []
    requires GreedyBy(rest, n, dup)
    requires forall c, t :: 0 <= c < |rest| && 0 <= t < |rest[c]| ==> rest[c][t] !in C2
    requires forall x :: 0 <= x < n && x !in C2 ==> !dup(g[0], x)
    ensures GreedyBy([g] + rest, n, dup)
  {
    var cl := [g] + rest;
    forall c1, c2, t | 0 <= c1 < c2 < |cl| && cl[c1] != [] && cl[c1][0] < n && 0 <= t < |cl[c2]| && cl[c2][t] < n
      ensures !dup(cl[c1][0], cl[c2][t])
    {
      assert cl[c2] == rest[c2 - 1];
      if c1 == 0 {
        assert rest[c2 - 1][t] !in C2;
      } else {
        assert cl[c1] == rest[c1 - 1];
      }
    }
  }

  /**
   * The greedy grouping: every record is in exactly one group; a group is its
   * seed followed, in list order, by records that duplicate the seed; seeds
   * come in list order; and a record in a later group duplicates no earlier
   * seed.  Matching a member other than the seed does not make a record join.
   */
  lemma ClustersPartition(recs: seq<DupRecord>, cfg: Settings, markers: set<Path>)
    ensures AllWellFormed(recs, Clusters(recs, cfg, markers), 0, {}, cfg, markers)
    ensures forall k :: 0 <= k < |recs| ==> Grouped(Clusters(recs, cfg, markers), k)
    ensures Disjoint(Clusters(recs, cfg, markers))
    ensures SeedsInOrder(Clusters(recs, cfg, markers))
    ensures Greedy(recs, Clusters(recs, cfg, markers), cfg, markers)
  {
    ClustersShape(recs, 0, {}, cfg, markers);
    ClustersCover(recs, 0, {}, cfg, markers);
    ClustersDisjoint(recs, 0, {}, cfg, markers);
    ClustersSeedOrder(recs, 0, {}, cfg, markers);
    ClustersGreedy(recs, 0, {}, cfg, markers);
  }

  /** A record of the list with key `d` and nothing else set. */
  function Keyed(d: string): DupRecord
  {
    DupRecord(false, NewCache(d), d, NoText, "", d, Null)
  }

  /**
   * The grouping is not closed under matching: with keys "xy", "y" and "yz"
   * the first two match and the last two match, but the seed "xy" does not
   * match "yz", so "yz" stays alone and only the first two are published.
   */
  lemma ChainIsCut(markers: set<Path>)
    ensures var recs := [Keyed("xy"), Keyed("y"), Keyed("yz")];
      var cfg := Settings(0, 1);
      Dup(recs, 0, 1, cfg, markers) && Dup(recs, 1, 2, cfg, markers) && !Dup(recs, 0, 2, cfg, markers) &&
      Clusters(recs, cfg, markers) == [[0, 1], [2]] &&
      Big(Clusters(recs, cfg, markers)) == [[0, 1]]
  {
    ChainVerdicts(markers);
    ChainClusters(markers);
    assert [[0, 1], [2]][..1] == [[0, 1]];
    assert [[0, 1]][..0] == [];
  }

  /** The groups behind `ChainIsCut`. */
  lemma ChainClusters(markers: set<Path>)
    ensures Clusters([Keyed("xy"), Keyed("y"), Keyed("yz")], Settings(0, 1), markers) == [[0, 1], [2]]
  {
    var recs := [Keyed("xy"), Keyed("y"), Keyed("yz")];
    var cfg := Settings(0, 1);
    ChainFirstGroup(markers);
    ChainLastGroup(markers);
    assert Elems([0, 1]) == {0, 1};
    assert Elems([2]) == {2};
    assert {0, 1} + {2} == {0, 1, 2};
    assert ClustersFrom(recs, 3, {0, 1, 2}, cfg, markers) == [];
    assert ClustersFrom(recs, 2, {0, 1}, cfg, markers) == [[2]];
    assert ClustersFrom(recs, 1, {0, 1}, cfg, markers) == [[2]];
    assert {} + Elems([0, 1]) == {0, 1};
    assert ClustersFrom(recs, 0, {}, cfg, markers) == [[0, 1]] + [[2]];
  }

  /** The answers behind `ChainIsCut`. */
  lemma ChainVerdicts(markers: set<Path>)
    ensures var recs := [Keyed("xy"), Keyed("y"), Keyed("yz")];
      var cfg := Settings(0, 1);
      Dup(recs, 0, 0, cfg, markers) && Dup(recs, 0, 1, cfg, markers) && Dup(recs, 1, 2, cfg, markers) &&
      !Dup(recs, 0, 2, cfg, markers)
  {
    var recs := [Keyed("xy"), Keyed("y"), Keyed("yz")];
    var cfg := Settings(0, 1);
    assert OccursAt("y", "xy", 1);
    assert OccursAt("y", "yz", 0);
    assert !OccursAt("xy", "yz", 0) by {
      assert "yz"[0..2][0] != "xy"[0];
    }
    IsDuplicateReflexive(recs[0], cfg, markers);
  }

  /** The first seed takes the second recording and leaves the third. */
  lemma ChainFirstGroup(markers: set<Path>)
    ensures SeedGroup([Keyed("xy"), Keyed("y"), Keyed("yz")], 0, {}, Settings(0, 1), markers) == [0, 1]
  {
    var recs := [Keyed("xy"), Keyed("y"), Keyed("yz")];
    var cfg := Settings(0, 1);
    ChainVerdicts(markers);
    var ds := Verdicts(recs, 0, cfg, markers);
    assert ds[1] && !ds[2];
    assert Joiners(ds, 3, {0}) == [];
    assert Joiners(ds, 2, {0}) == [];
    assert Joiners(ds, 1, {0}) == [1];
    assert Joiners(ds, 0, {0}) == [1];
    assert {} + {0} == {0};
  }

  /** The third recording, seeded last, is alone. */
  lemma ChainLastGroup(markers: set<Path>)
    ensures SeedGroup([Keyed("xy"), Keyed("y"), Keyed("yz")], 2, {0, 1}, Settings(0, 1), markers) == [2]
  {
    var recs := [Keyed("xy"), Keyed("y"), Keyed("yz")];
    var cfg := Settings(0, 1);
    var ds := Verdicts(recs, 2, cfg, markers);
    assert {0, 1} + {2} == {0, 1, 2};
    assert Joiners(ds, 3, {0, 1, 2}) == [];
    assert Joiners(ds, 2, {0, 1, 2}) == [];
    assert Joiners(ds, 1, {0, 1, 2}) == [];
    assert Joiners(ds, 0, {0, 1, 2}) == [];
  }

  /** What is published keeps the order of the seeds. */
  lemma {:induction false} BigKeepsSeedOrder(cl: seq<seq<nat>>)
    requires SeedsInOrder(cl)
    ensures SeedsInOrder(Big(cl))
  {
    if cl != [] {
      var init := cl[..|cl| - 1];
      var last := cl[|cl| - 1];
      assert forall c :: 0 <= c < |init| ==> init[c] == cl[c];
      BigKeepsSeedOrder(init);
      var b := Big(init);
      if |last| > 1 {
        forall k | 0 <= k < |b| ensures b[k][0] < last[0] {
          var c :| 0 <= c < |init| && init[c] == b[k];
          assert cl[c] == b[k];
        }
      }
    }
  }

  // ---- the grouping pass ----

  /** The answer of the checks the pass makes (running and library unchanged, stopped, library changed). */
  datatype Probe = Quiet | Stopped | Changed

  /** The first of the checks `k .. n-1` that does not come back quiet. */
  function FirstAlarm(probe: nat -> Probe, k: nat, n: nat): (r: Option<nat>)
    ensures r.Some? ==> k <= r.value < n && probe(r.value) != Quiet
    ensures r.None? ==> forall m :: k <= m < n ==> probe(m) == Quiet
    decreases n - k
  {
    if k >= n then None
    else if probe(k) != Quiet then Some(k)
    else FirstAlarm(probe, k + 1, n)
  }

  /**
   * The same recording: every field but the checked flag and the visibility
   * cache is equal, and the cache is the one it was built with or, only when
   * hidden recordings are not shown, that one filled from the markers.
   */
  predicate Similar(x: DupRecord, r: DupRecord, cfg: Settings, markers: set<Path>)
  {
    x == r.(checked := x.checked, vis := x.vis) &&
    (x.vis == r.vis || (!cfg.showHidden && x.vis == Resolve(r.vis, markers)))
  }

  lemma DupSimilar(x: DupRecord, y: DupRecord, r: DupRecord, s: DupRecord, cfg: Settings, markers: set<Path>)
    requires Similar(x, r, cfg, markers) && Similar(y, s, cfg, markers)
    ensures IsDuplicate(x, y, cfg, markers).dup == IsDuplicate(r, s, cfg, markers).dup
  {
    ResolveStable(r.vis, markers);
    ResolveStable(s.vis, markers);
    assert HasDescription(x) == HasDescription(r);
    assert HasDescription(y) == HasDescription(s);
  }

  /** A duplicate group head holding `members`. */
  function DupGroup(members: seq<DupRecord>): (h: DupRecord)
    ensures h.text == Label(DuplicateRecordings, |members|) && h.duplicates == List(members)
  {
    SetText(GroupHead().(duplicates := List(members)), Label(DuplicateRecordings, |members|))
  }

  /** The catch-all head holding the records without description. */
  function CatchAll(members: seq<DupRecord>): (h: DupRecord)
    ensures h.text == Label(WithoutDescription, |members|) && h.duplicates == List(members)
  {
    SetText(GroupHead().(duplicates := List(members)), Label(WithoutDescription, |members|))
  }

  /** Head `h` is the published form of group `g`: its members are the copies of the group's records in order. */
  predicate GroupMatches(h: DupRecord, g: seq<nat>, recs: seq<DupRecord>, cfg: Settings, markers: set<Path>)
  {
    h.duplicates.List? && h == DupGroup(h.duplicates.items) && Gathered(h.duplicates.items, g, recs, cfg, markers)
  }

  predicate GroupsMatch(hs: seq<DupRecord>, gs: seq<seq<nat>>, recs: seq<DupRecord>, cfg: Settings, markers: set<Path>)
  {
    |hs| == |gs| && forall k :: 0 <= k < |hs| ==> GroupMatches(hs[k], gs[k], recs, cfg, markers)
  }

  datatype GroupOutcome = Aborted(changed: bool) | Completed(groups: seq<DupRecord>)

  /**
   * The grouping loops of `Scan`.  Before each seed the pass checks the
   * oracle and gives up at the first alarm.  An unchecked record is marked,
   * a copy of it starts a group, and every unchecked record that duplicates
   * it (asked of the seed) is copied into the group and marked.  Groups of
   * more than one are kept, labelled with their size.
   */
  method GroupRecords(recs: seq<DupRecord>, cfg: Settings, markers: set<Path>, probe: nat -> Probe)
    returns (out: GroupOutcome)
    requires forall k :: 0 <= k < |recs| ==> !recs[k].checked && recs[k].duplicates == Null
    ensures out.Aborted? <==> FirstAlarm(probe, 0, |recs|).Some?
    ensures out.Aborted? ==> out.changed == (probe(FirstAlarm(probe, 0, |recs|).value) == Changed)
    ensures out.Completed? ==> GroupsMatch(out.groups, Big(Clusters(recs, cfg, markers)), recs, cfg, markers)
  {
    var a := recs;
    var groups: seq<DupRecord> := [];
    ghost var C: set<nat> := {};
    ghost var done: seq<seq<nat>> := [];
    for i := 0 to |recs|
      invariant PassState(recs, a, groups, i, C, done, cfg, markers)
      invariant FirstAlarm(probe, 0, |recs|) == FirstAlarm(probe, i, |recs|)
    {
      if probe(i) != Quiet {
        return Aborted(probe(i) == Changed);
      }
      a, groups, C, done := SeedStep(recs, a, groups, i, cfg, markers, C, done);
    }
    assert ClustersFrom(recs, |recs|, C, cfg, markers) == [];
    assert done + [] == done;
    assert done == Clusters(recs, cfg, markers);
    return Completed(groups);
  }

  /**
   * The state of the outer loop before position `i`: the records before `i`
   * are checked, `done` are the groups seeded so far (the rest follows from
   * `i` on), and `groups` are the published heads of those with more than one
   * record.
   */
  ghost predicate PassState(recs: seq<DupRecord>, a: seq<DupRecord>, groups: seq<DupRecord>, i: nat, C: set<nat>,
                            done: seq<seq<nat>>, cfg: Settings, markers: set<Path>)
  {
    i <= |recs| && Tracks(a, recs, cfg, markers) && Settled(a, recs, cfg, markers) && Marked(a, C) &&
    (forall k :: 0 <= k < i ==> k in C) &&
    done + ClustersFrom(recs, i, C, cfg, markers) == Clusters(recs, cfg, markers) &&
    GroupsMatch(groups, Big(done), recs, cfg, markers)
  }

  /** One turn of the outer loop, at seed position `i`. */
  method SeedStep(recs: seq<DupRecord>, a: seq<DupRecord>, groups: seq<DupRecord>, i: nat, cfg: Settings,
                  markers: set<Path>, ghost C: set<nat>, ghost done: seq<seq<nat>>)
    returns (a': seq<DupRecord>, groups': seq<DupRecord>, ghost C': set<nat>, ghost done': seq<seq<nat>>)
    requires i < |recs|
    requires forall k :: 0 <= k < |recs| ==> recs[k].duplicates == Null
    requires PassState(recs, a, groups, i, C, done, cfg, markers)
    ensures PassState(recs, a', groups', i + 1, C', done', cfg, markers)
  {
    a', groups', C', done' := a, groups, C, done;
    if !a[i].checked {
      var members;
      ghost var g;
      a', members, g := FormGroup(recs, a, i, cfg, markers, C);
      ghost var rest := ClustersFrom(recs, i + 1, C + Elems(g), cfg, markers);
      assert ClustersFrom(recs, i, C, cfg, markers) == [g] + rest;
      assert done + ([g] + rest) == (done + [g]) + rest;
      assert g[0] == i;
      assert i in Elems(g);
      C' := C + Elems(g);
      BigSnoc(done, g);
      done' := done + [g];
      if |members| > 1 {
        GatheredMatches(members, g, recs, cfg, markers);
        GroupsMatchSnoc(groups, Big(done), DupGroup(members), g, recs, cfg, markers);
        groups' := groups + [DupGroup(members)];
      }
    } else {
      assert ClustersFrom(recs, i, C, cfg, markers) == ClustersFrom(recs, i + 1, C, cfg, markers);
    }
  }

  /** An unchecked record `i` becomes a seed: it is marked, then its group is gathered. */
  method FormGroup(recs: seq<DupRecord>, a: seq<DupRecord>, i: nat, cfg: Settings, markers: set<Path>, ghost C: set<nat>)
    returns (a': seq<DupRecord>, members: seq<DupRecord>, ghost g: seq<nat>)
    requires i < |recs| && i !in C
    requires forall k :: 0 <= k < |recs| ==> recs[k].duplicates == Null
    requires Tracks(a, recs, cfg, markers) && Settled(a, recs, cfg, markers) && Marked(a, C)
    ensures g == SeedGroup(recs, i, C, cfg, markers)
    ensures Gathered(members, g, recs, cfg, markers)
    ensures Tracks(a', recs, cfg, markers) && Settled(a', recs, cfg, markers) && Marked(a', C + Elems(g))
  {
    UpdateTracks(a, recs, cfg, markers, C, i, SetChecked(a[i]));
    a' := a[i := SetChecked(a[i])];
    a', members, g := GatherGroup(recs, a', i, cfg, markers, C + {i});
    MarkedElems(a', C + {i}, g);
    assert i in Elems(g);
    assert C + {i} + Elems(g) == C + Elems(g);
  }

  lemma GroupsMatchSnoc(hs: seq<DupRecord>, gs: seq<seq<nat>>, h: DupRecord, g: seq<nat>, recs: seq<DupRecord>,
                        cfg: Settings, markers: set<Path>)
    requires GroupsMatch(hs, gs, recs, cfg, markers) && GroupMatches(h, g, recs, cfg, markers)
    ensures GroupsMatch(hs + [h], gs + [g], recs, cfg, markers)
  {
  }

  /** The copies gathered for a group of more than one make its published head. */
  lemma GatheredMatches(members: seq<DupRecord>, g: seq<nat>, recs: seq<DupRecord>, cfg: Settings, markers: set<Path>)
    requires Gathered(members, g, recs, cfg, markers)
    ensures GroupMatches(DupGroup(members), g, recs, cfg, markers)
  {
  }

  lemma BigSnoc(done: seq<seq<nat>>, g: seq<nat>)
    ensures Big(done + [g]) == Big(done) + (if |g| > 1 then [g] else [])
  {
    assert (done + [g])[..|done|] == done;
  }

  /** Every record of `a` is the same recording as its counterpart in `recs`. */
  predicate Tracks(a: seq<DupRecord>, recs: seq<DupRecord>, cfg: Settings, markers: set<Path>)
  {
    |a| == |recs| && forall k :: 0 <= k < |a| ==> Similar(a[k], recs[k], cfg, markers)
  }

  /** Exactly the records at the positions in `D` are checked. */
  predicate Marked(a: seq<DupRecord>, D: set<nat>)
  {
    forall k :: 0 <= k < |a| ==> (a[k].checked <==> k in D)
  }

  /**
   * The members gathered so far are copies of the records of `g`, in order:
   * the seed's copy is taken after it is marked, each joiner's before, and a
   * joiner's cache, when hidden recordings are not shown, has been filled
   * from the markers by the question that let it join; the seed of a group
   * of more than one keeps the cache it was built with.
   */
  predicate Gathered(members: seq<DupRecord>, g: seq<nat>, recs: seq<DupRecord>, cfg: Settings, markers: set<Path>)
  {
    |members| == |g| &&
    (forall t :: 0 <= t < |g| ==>
      g[t] < |recs| && Similar(members[t], recs[g[t]], cfg, markers) && members[t].duplicates == Null &&
      (members[t].checked <==> t == 0) &&
      (0 < t && !cfg.showHidden ==> members[t].vis == Resolve(recs[g[t]].vis, markers))) &&
    (|g| > 1 ==> g[0] < |recs| && members[0].vis == recs[g[0]].vis)
  }

  /**
   * A record's cache differs from the one it was built with only when the
   * record is checked or, with hidden recordings not shown, reads hidden: an
   * unchecked record's cache is filled only by a question that refused it.
   */
  predicate Settled(a: seq<DupRecord>, recs: seq<DupRecord>, cfg: Settings, markers: set<Path>)
  {
    |a| == |recs| &&
    forall k :: 0 <= k < |a| ==>
      a[k].checked || a[k].vis == recs[k].vis || (!cfg.showHidden && ReadState(recs[k].vis, markers) == Hidden)
  }

  /** A seed that reads hidden, while hidden recordings are not shown, accepts nothing. */
  lemma HiddenSeedRefuses(recs: seq<DupRecord>, i: nat, j: nat, cfg: Settings, markers: set<Path>)
    requires i < |recs| && j < |recs|
    requires !cfg.showHidden && ReadState(recs[i].vis, markers) == Hidden
    ensures !Dup(recs, i, j, cfg, markers)
  {
    IsDuplicateSpec(recs[i], recs[j], cfg, markers);
  }

  lemma UpdateTracks(a: seq<DupRecord>, recs: seq<DupRecord>, cfg: Settings, markers: set<Path>, D: set<nat>, k: nat, v: DupRecord)
    requires Tracks(a, recs, cfg, markers) && Marked(a, D) && k < |a| && Similar(v, recs[k], cfg, markers)
    ensures Tracks(a[k := v], recs, cfg, markers)
    ensures Marked(a[k := v], if v.checked then D + {k} else D - {k})
  {
  }

  /** A record whose cache was resolved, while hidden recordings are not shown, is still the same recording. */
  lemma SimilarResolved(x: DupRecord, y: DupRecord, r: DupRecord, cfg: Settings, markers: set<Path>)
    requires Similar(x, r, cfg, markers) && y == x.(vis := y.vis)
    requires y.vis == x.vis || (!cfg.showHidden && y.vis == Resolve(x.vis, markers))
    ensures Similar(y, r, cfg, markers)
    ensures y.vis == Resolve(x.vis, markers) ==> y.vis == Resolve(r.vis, markers)
  {
    ResolveStable(r.vis, markers);
  }

  /**
   * `a[i].IsDuplicate(a[j])` inside the scan: the answer, and the list with
   * both records as the question left their caches.
   */
  method AskSeed(a: seq<DupRecord>, recs: seq<DupRecord>, i: nat, j: nat, cfg: Settings, markers: set<Path>, ghost D: set<nat>)
    returns (a2: seq<DupRecord>, dup: bool)
    requires Tracks(a, recs, cfg, markers) && Settled(a, recs, cfg, markers) && Marked(a, D)
    requires i < |a| && j < |a| && i in D && j !in D
    ensures dup == Verdicts(recs, i, cfg, markers)[j]
    ensures Tracks(a2, recs, cfg, markers) && Marked(a2, D)
    ensures Settled(if dup then a2[j := SetChecked(a2[j])] else a2, recs, cfg, markers)
    ensures dup && !cfg.showHidden ==> a2[j].vis == Resolve(recs[j].vis, markers)
  {
    var m := IsDuplicate(a[i], a[j], cfg, markers);
    ResolveStable(recs[j].vis, markers);
    DupSimilar(a[i], a[j], recs[i], recs[j], cfg, markers);
    IsDuplicateCaches(a[i], a[j], cfg, markers);
    SimilarResolved(a[i], m.a, recs[i], cfg, markers);
    SimilarResolved(a[j], m.b, recs[j], cfg, markers);
    UpdateTracks(a, recs, cfg, markers, D, i, m.a);
    assert D + {i} == D;
    UpdateTracks(a[i := m.a], recs, cfg, markers, D, j, m.b);
    assert D - {j} == D;
    a2 := a[i := m.a][j := m.b];
    dup := m.dup;
  }

  /**
   * The state of the inner loop before position `j`: `g` lists the group so
   * far (the seed, then the records taken), which with the joiners still to
   * come makes up the whole group `G`; `members` are their copies; exactly
   * the records of `C` and of `g` are checked.
   */
  ghost predicate GatherState(recs: seq<DupRecord>, a: seq<DupRecord>, members: seq<DupRecord>, g: seq<nat>,
                              i: nat, j: nat, C: set<nat>, ds: seq<bool>, G: seq<nat>, cfg: Settings, markers: set<Path>)
  {
    j <= |ds| && g + Joiners(ds, j, C) == G &&
    |g| >= 1 && g[0] == i && (forall x :: x in g ==> x == i || x < j) &&
    Gathered(members, g, recs, cfg, markers) &&
    (members[0].vis == recs[i].vis || (!cfg.showHidden && ReadState(recs[i].vis, markers) == Hidden)) &&
    Tracks(a, recs, cfg, markers) && Settled(a, recs, cfg, markers) && MarkedWith(a, C, g)
  }

  /** Exactly the records in `C` or in `g` are checked. */
  predicate MarkedWith(a: seq<DupRecord>, C: set<nat>, g: seq<nat>)
  {
    forall k :: 0 <= k < |a| ==> (a[k].checked <==> k in C || k in g)
  }

  lemma MarkedElems(a: seq<DupRecord>, C: set<nat>, g: seq<nat>)
    requires MarkedWith(a, C, g)
    ensures Marked(a, C + Elems(g))
  {
  }

  /**
   * The inner loop of `Scan` for seed `i`, already marked: walks the whole
   * list, asks the seed about every unchecked record, keeps both caches as
   * the question left them, and copies and marks each record that matched.
   * `C` is the set of records checked before the walk.
   */
  method GatherGroup(recs: seq<DupRecord>, a: seq<DupRecord>, i: nat, cfg: Settings, markers: set<Path>, ghost C: set<nat>)
    returns (a': seq<DupRecord>, members: seq<DupRecord>, ghost g: seq<nat>)
    requires i < |recs| && i in C
    requires forall k :: 0 <= k < |recs| ==> recs[k].duplicates == Null
    requires Tracks(a, recs, cfg, markers) && Settled(a, recs, cfg, markers) && Marked(a, C)
    requires a[i].vis == recs[i].vis || (!cfg.showHidden && ReadState(recs[i].vis, markers) == Hidden)
    ensures g == [i] + Joiners(Verdicts(recs, i, cfg, markers), 0, C)
    ensures Gathered(members, g, recs, cfg, markers)
    ensures Tracks(a', recs, cfg, markers) && Settled(a', recs, cfg, markers) && MarkedWith(a', C, g)
  {
    a' := a;
    ghost var ds := Verdicts(recs, i, cfg, markers);
    ghost var G := [i] + Joiners(ds, 0, C);
    var seedCopy := Copy(a[i]);
    members := [seedCopy];
    g := [i];
    for j := 0 to |recs|
      invariant GatherState(recs, a', members, g, i, j, C, ds, G, cfg, markers)
    {
      a', members, g := Visit(recs, a', members, i, j, cfg, markers, C, ds, G, g);
    }
    assert g + [] == g;
  }

  /** One turn of the inner loop, at position `j`. */
  method Visit(recs: seq<DupRecord>, a: seq<DupRecord>, members: seq<DupRecord>, i: nat, j: nat, cfg: Settings,
               markers: set<Path>, ghost C: set<nat>, ghost ds: seq<bool>, ghost G: seq<nat>, ghost g: seq<nat>)
    returns (a': seq<DupRecord>, members': seq<DupRecord>, ghost g': seq<nat>)
    requires i < |recs| && j < |recs| && i in C && ds == Verdicts(recs, i, cfg, markers)
    requires forall k :: 0 <= k < |recs| ==> recs[k].duplicates == Null
    requires GatherState(recs, a, members, g, i, j, C, ds, G, cfg, markers)
    ensures GatherState(recs, a', members', g', i, j + 1, C, ds, G, cfg, markers)
  {
    a', members', g' := a, members, g;
    ghost var D := C + Elems(g);
    JoinersNext(ds, j, C, g, G);
    assert j in D <==> j in C;
    if !a[j].checked {
      var dup;
      a', dup := AskSeed(a, recs, i, j, cfg, markers, D);
      if dup {
        if members[0].vis != recs[i].vis {
          HiddenSeedRefuses(recs, i, j, cfg, markers);
        }
        var c := Copy(a'[j]);
        GatheredSnoc(members, g, recs, cfg, markers, c, j);
        members' := members + [c];
        UpdateTracks(a', recs, cfg, markers, D, j, SetChecked(a'[j]));
        a' := a'[j := SetChecked(a'[j])];
        g' := g + [j];
      }
    }
  }

  lemma JoinersNext(ds: seq<bool>, j: nat, C: set<nat>, g: seq<nat>, G: seq<nat>)
    requires j < |ds| && g + Joiners(ds, j, C) == G
    ensures (if j !in C && ds[j] then g + [j] else g) + Joiners(ds, j + 1, C) == G
  {
    if j !in C && ds[j] {
      assert g + Joiners(ds, j, C) == g + ([j] + Joiners(ds, j + 1, C));
    } else {
      assert Joiners(ds, j, C) == Joiners(ds, j + 1, C);
    }
  }

  lemma GatheredSnoc(members: seq<DupRecord>, g: seq<nat>, recs: seq<DupRecord>, cfg: Settings, markers: set<Path>,
                     c: DupRecord, j: nat)
    requires Gathered(members, g, recs, cfg, markers) && |g| >= 1 && j < |recs|
    requires c.duplicates == Null && Similar(c, recs[j], cfg, markers) && !c.checked
    requires !cfg.showHidden ==> c.vis == Resolve(recs[j].vis, markers)
    requires members[0].vis == recs[g[0]].vis
    ensures Gathered(members + [c], g + [j], recs, cfg, markers)
  {
  }

  /** Copies each group with the copy constructor, in order. */
  method CopyGroups(gs: seq<DupRecord>) returns (cs: seq<DupRecord>)
    ensures cs == CopiedAll(gs)
  {
    cs := [];
    for k := 0 to |gs|
      invariant cs == CopiedAll(gs[..k])
    {
      var c := Copy(gs[k]);
      CopiedAllSnoc(gs[..k], gs[k]);
      assert gs[..k + 1] == gs[..k] + [gs[k]];
      cs := cs + [c];
    }
    assert gs[..|gs|] == gs;
  }

  /** The groups a pass builds survive the copy constructor as they are. */
  lemma CopiesUnchanged(groups: seq<DupRecord>, big: seq<seq<nat>>, recs: seq<DupRecord>, cfg: Settings, markers: set<Path>)
    requires |big| <= |groups| && GroupsMatch(groups[..|big|], big, recs, cfg, markers)
    requires forall k :: 0 <= k < |big| ==> |big[k]| > 1
    requires forall k :: |big| <= k < |groups| ==>
      groups[k].duplicates.List? && groups[k].duplicates.items != [] &&
      forall t :: 0 <= t < |groups[k].duplicates.items| ==> groups[k].duplicates.items[t].duplicates == Null
    ensures CopiedAll(groups) == groups
  {
    forall k | 0 <= k < |groups| ensures CopiedAll(groups)[k] == groups[k] {
      CopiedAllAt(groups, k);
      if k < |big| {
        assert GroupMatches(groups[..|big|][k], big[k], recs, cfg, markers);
      }
      CopiedIdentity(groups[k]);
    }
  }

  /**
   * What a completed pass publishes: the duplicate groups in seed order, then
   * the catch-all group when it is not empty.
   */
  ghost predicate Publication(gs: seq<DupRecord>, lib: seq<RecordingInfo>, cfg: Settings, markers: set<Path>)
  {
    var recs := Described(lib, cfg);
    var big := Big(Clusters(recs, cfg, markers));
    var rest := Undescribed(lib, cfg, markers);
    |gs| == |big| + (if rest == [] then 0 else 1) &&
    GroupsMatch(gs[..|big|], big, recs, cfg, markers) &&
    (rest != [] ==> gs[|big|] == CatchAll(rest))
  }

  datatype PassOutcome = Abandoned(changed: bool) | Finished(groups: seq<DupRecord>)

  /**
   * The body of `Scan` up to publishing: builds the records, groups them,
   * appends the catch-all group, makes the final check (only a library change
   * abandons the pass there) and copies the groups for publishing.
   */
  method Pass(lib: seq<RecordingInfo>, cfg: Settings, markers: set<Path>, probe: nat -> Probe) returns (res: PassOutcome)
    ensures var n := |Described(lib, cfg)|;
      var alarm := FirstAlarm(probe, 0, n);
      (res.Abandoned? <==> alarm.Some? || probe(n) == Changed) &&
      (res.Abandoned? ==> res.changed == (alarm.None? || probe(alarm.value) == Changed)) &&
      (res.Finished? ==> Publication(res.groups, lib, cfg, markers))
  {
    var recs, undescribed := BuildRecords(lib, cfg, markers);
    var out := GroupRecords(recs, cfg, markers, probe);
    if out.Aborted? {
      return Abandoned(out.changed);
    }
    var groups := out.groups;
    ghost var big := Big(Clusters(recs, cfg, markers));
    if |undescribed| > 0 {
      groups := groups + [CatchAll(undescribed)];
    }
    assert groups[..|big|] == out.groups;
    if probe(|recs|) == Changed {
      return Abandoned(true);
    }
    var copies := CopyGroups(groups);
    CopiesUnchanged(groups, big, recs, cfg, markers);
    return Finished(copies);
  }

  /** The key the scanner holds on the library's change counter. */
  datatype StateKey = Stale | Seen(state: nat)

  /** The library has something the key has not seen (GetRecordingsRead succeeds). */
  predicate Unseen(key: StateKey, libState: nat)
  {
    key.Stale? || key.state != libState
  }

  class ScannerThread {
    var title: int
    var hidden: int
    var key: StateKey

    /** Remembers the settings it starts with; nothing of the library is seen yet. */
    constructor (cfg: Settings)
      ensures title == cfg.title && hidden == cfg.hidden && key == Stale
    {
      title := cfg.title;
      hidden := cfg.hidden;
      key := Stale;
    }

    /**
     * One scan pass over library `lib` with marker set `fs.markers`.  Any
     * alarm before a seed, or a library change after grouping, leaves the
     * published list untouched; a change also makes the key stale so that
     * the next step scans again.  Otherwise the list is replaced by copies of
     * the new groups.
     */
    method Scan(cfg: Settings, lib: seq<RecordingInfo>, fs: FileSystem, probe: nat -> Probe, published: DuplicateRecordings)
      modifies this`key, published
      ensures var n := |Described(lib, cfg)|;
        var alarm := FirstAlarm(probe, 0, n);
        var aborted := alarm.Some? || probe(n) == Changed;
        (aborted ==> published.groups == old(published.groups) && published.state == old(published.state)) &&
        (!aborted ==> Publication(published.groups, lib, cfg, fs.markers) && published.state == old(published.state) + 1) &&
        key == (if (alarm.Some? && probe(alarm.value) == Changed) || (alarm.None? && probe(n) == Changed) then Stale
                else old(key))
    {
      var res := Pass(lib, cfg, fs.markers, probe);
      if res.Abandoned? {
        if res.changed {
          key := Stale;
        }
        return;
      }
      published.Replace(res.groups);
    }

    /**
     * One turn of the scanner loop: a change of either setting integer makes
     * the key stale; a library the key has not seen is scanned, with the key set to
     * the library's state first, so that only a change during the pass makes
     * the next turn scan again.
     */
    method Step(cfg: Settings, libState: nat, lib: seq<RecordingInfo>, fs: FileSystem, probe: nat -> Probe,
                published: DuplicateRecordings) returns (scanned: bool)
      modifies this, published
      ensures title == cfg.title && hidden == cfg.hidden
      ensures scanned <==> (old(title) != cfg.title || old(hidden) != cfg.hidden || Unseen(old(key), libState))
      ensures !scanned ==> key == old(key) && published.groups == old(published.groups) && published.state == old(published.state)
      ensures scanned ==> var n := |Described(lib, cfg)|;
        var alarm := FirstAlarm(probe, 0, n);
        var aborted := alarm.Some? || probe(n) == Changed;
        (aborted ==> published.groups == old(published.groups) && published.state == old(published.state)) &&
        (!aborted ==> Publication(published.groups, lib, cfg, fs.markers) && published.state == old(published.state) + 1) &&
        key == (if (alarm.Some? && probe(alarm.value) == Changed) || (alarm.None? && probe(n) == Changed) then Stale
                else Seen(libState))
    {
      if title != cfg.title || hidden != cfg.hidden {
        key := Stale;
        title := cfg.title;
        hidden := cfg.hidden;
      }
      scanned := Unseen(key, libState);
      if scanned {
        key := Seen(libState);
        Scan(cfg, lib, fs, probe, published);
      }
    }
  }
}
