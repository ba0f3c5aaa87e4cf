/**
 * The published list of duplicate groups (cDuplicateRecordings) and its
 * pruning when a recording goes away.
 *
 * Each group is a head record whose member list holds copies of the
 * recordings in the group and whose text is the group's label.  The list
 * carries a state number that a writer advances when it changes the list in
 * a way readers must notice.
 */
module Published {
  import opened Visibility
  import opened Recording

  /** `items` without the records of file `f`, the others in order. */
  function WithoutFile(items: seq<DupRecord>, f: Path): (r: seq<DupRecord>)
    ensures |r| <= |items|
    ensures forall i :: 0 <= i < |r| ==> r[i].fileName != f
  {
    if items == [] then []
    else (if items[0].fileName == f then [] else [items[0]]) + WithoutFile(items[1..], f)
  }

  /** Some member of `items` belongs to file `f`. */
  predicate HasFile(items: seq<DupRecord>, f: Path)
  {
    items != [] && (items[0].fileName == f || HasFile(items[1..], f))
  }

  lemma {:induction false} WithoutFileClean(items: seq<DupRecord>, f: Path)
    ensures !HasFile(WithoutFile(items, f), f)
  {
    if items != [] {
      WithoutFileClean(items[1..], f);
      var r := WithoutFile(items[1..], f);
      if items[0].fileName != f {
        assert ([items[0]] + r)[1..] == r;
      } else {
        assert WithoutFile(items, f) == r;
      }
    }
  }

  lemma {:induction false} WithoutFileAbsent(items: seq<DupRecord>, f: Path)
    requires !HasFile(items, f)
    ensures WithoutFile(items, f) == items
  {
    if items != [] {
      WithoutFileAbsent(items[1..], f);
    }
  }

  /** The label a group gets for `n` members, after what its first member says. */
  function LabelFor(g: DupRecord, n: nat): Text
  {
    Label(if HasDescription(g) then DuplicateRecordings else WithoutDescription, n)
  }

  /**
   * One group after `Remove(f)`: gone when it has no member list or keeps
   * fewer than two members, otherwise relabelled with its new count.
   */
  function PruneGroup(g: DupRecord, f: Path): (r: Option<DupRecord>)
  {
    match g.duplicates
    case Null => None
    case List(items) =>
      var kept := WithoutFile(items, f);
      if |kept| < 2 then None
      else
        var g' := g.(duplicates := List(kept));
        Some(SetText(g', LabelFor(g', |kept|)))
  }

  /** The whole list after `Remove(f)`. */
  function Pruned(groups: seq<DupRecord>, f: Path): seq<DupRecord>
  {
    if groups == [] then []
    else match PruneGroup(groups[0], f)
      case None => Pruned(groups[1..], f)
      case Some(g) => [g] + Pruned(groups[1..], f)
  }

  /**
   * A well-formed group: a member list of at least two recordings, labelled
   * with that count, as "duplicate recordings" exactly when the group has a
   * description.
   */
  predicate GoodGroup(g: DupRecord)
  {
    g.duplicates.List? && |g.duplicates.items| >= 2 && g.text == LabelFor(g, |g.duplicates.items|)
  }

  /** After `Remove(f)` every group is well formed and no member belongs to `f`. */
  lemma {:induction false} PrunedGroups(groups: seq<DupRecord>, f: Path)
    ensures |Pruned(groups, f)| <= |groups|
    ensures forall i :: 0 <= i < |Pruned(groups, f)| ==>
      GoodGroup(Pruned(groups, f)[i]) && !HasFile(Pruned(groups, f)[i].duplicates.items, f)
  {
    if groups != [] {
      PrunedGroups(groups[1..], f);
      var g := groups[0];
      match PruneGroup(g, f)
      case None =>
      case Some(g') =>
        var items := g.duplicates.items;
        var kept := WithoutFile(items, f);
        assert g'.duplicates.items == kept;
        WithoutFileClean(items, f);
        assert HasDescription(g') == HasDescription(g.(duplicates := List(kept)));
    }
  }

  /** The positions, from `j` on, of the groups that survive `Remove(f)`. */
  function Survivors(groups: seq<DupRecord>, f: Path, j: nat): seq<nat>
    requires j <= |groups|
    decreases |groups| - j
  {
    if j == |groups| then []
    else (if PruneGroup(groups[j], f).Some? then [j] else []) + Survivors(groups, f, j + 1)
  }

  /**
   * `P` lists, relabelled and in their old order, exactly the groups at
   * positions `S` (from `j` on) that keep two members or more.
   */
  predicate SurvivorsMatch(groups: seq<DupRecord>, f: Path, j: nat, S: seq<nat>, P: seq<DupRecord>)
  {
    |S| == |P| &&
    (forall i :: 0 <= i < |S| ==> j <= S[i] < |groups| && PruneGroup(groups[S[i]], f) == Some(P[i])) &&
    (forall i1, i2 :: 0 <= i1 < i2 < |S| ==> S[i1] < S[i2]) &&
    (forall k :: j <= k < |groups| && PruneGroup(groups[k], f).Some? ==> k in S)
  }

  /**
   * The groups left after `Remove(f)` are exactly the old groups that keep two
   * members or more, each relabelled by `PruneGroup`, in their old order.
   */
  lemma PrunedInOrder(groups: seq<DupRecord>, f: Path)
    ensures SurvivorsMatch(groups, f, 0, Survivors(groups, f, 0), Pruned(groups, f))
  {
    PrunedFrom(groups, f, 0);
    assert groups[0..] == groups;
  }

  lemma {:induction false} PrunedFrom(groups: seq<DupRecord>, f: Path, j: nat)
    requires j <= |groups|
    ensures SurvivorsMatch(groups, f, j, Survivors(groups, f, j), Pruned(groups[j..], f))
    decreases |groups| - j
  {
    if j < |groups| {
      PrunedFrom(groups, f, j + 1);
      var S1 := Survivors(groups, f, j + 1);
      var P1 := Pruned(groups[j + 1..], f);
      PrunedStep(groups, f, j);
      match PruneGroup(groups[j], f)
      case None =>
        SurvivorsSkip(groups, f, j, S1, P1);
      case Some(g) =>
        SurvivorsCons(groups, f, j, g, S1, P1);
    }
  }

  /** One step of both recursions, at position `j`. */
  lemma PrunedStep(groups: seq<DupRecord>, f: Path, j: nat)
    requires j < |groups|
    ensures PruneGroup(groups[j], f).None? ==>
      Survivors(groups, f, j) == Survivors(groups, f, j + 1) && Pruned(groups[j..], f) == Pruned(groups[j + 1..], f)
    ensures PruneGroup(groups[j], f).Some? ==>
      Survivors(groups, f, j) == [j] + Survivors(groups, f, j + 1) &&
      Pruned(groups[j..], f) == [PruneGroup(groups[j], f).value] + Pruned(groups[j + 1..], f)
  {
    var rest := groups[j..];
    assert rest[0] == groups[j] && rest[1..] == groups[j + 1..];
  }

  /** A group that does not survive adds nothing. */
  lemma SurvivorsSkip(groups: seq<DupRecord>, f: Path, j: nat, S1: seq<nat>, P1: seq<DupRecord>)
    requires j < |groups| && PruneGroup(groups[j], f).None?
    requires SurvivorsMatch(groups, f, j + 1, S1, P1)
    ensures SurvivorsMatch(groups, f, j, S1, P1)
  {
  }

  /** A group that survives goes in front, relabelled. */
  lemma SurvivorsCons(groups: seq<DupRecord>, f: Path, j: nat, g: DupRecord, S1: seq<nat>, P1: seq<DupRecord>)
    requires j < |groups| && PruneGroup(groups[j], f) == Some(g)
    requires SurvivorsMatch(groups, f, j + 1, S1, P1)
    ensures SurvivorsMatch(groups, f, j, [j] + S1, [g] + P1)
  {
    var S, P := [j] + S1, [g] + P1;
    forall i | 0 < i < |S| ensures S[i] == S1[i - 1] && P[i] == P1[i - 1] {
    }
  }

  /** A list of well-formed groups without `f` is left exactly as it is. */
  lemma {:induction false} PrunedUntouched(groups: seq<DupRecord>, f: Path)
    requires forall i :: 0 <= i < |groups| ==> GoodGroup(groups[i]) && !HasFile(groups[i].duplicates.items, f)
    ensures Pruned(groups, f) == groups
  {
    if groups != [] {
      var g := groups[0];
      WithoutFileAbsent(g.duplicates.items, f);
      assert g.(duplicates := List(g.duplicates.items)) == g;
      assert PruneGroup(g, f) == Some(g);
      PrunedUntouched(groups[1..], f);
    }
  }

  /** Removing the same recording twice is removing it once. */
  lemma PrunedIdempotent(groups: seq<DupRecord>, f: Path)
    ensures Pruned(Pruned(groups, f), f) == Pruned(groups, f)
  {
    PrunedGroups(groups, f);
    PrunedUntouched(Pruned(groups, f), f);
  }

  /** Some group of the list has a member of file `f` (the only removal that counts as a change). */
  predicate Mentions(groups: seq<DupRecord>, f: Path)
  {
    groups != [] &&
    ((groups[0].duplicates.List? && HasFile(groups[0].duplicates.items, f)) || Mentions(groups[1..], f))
  }

  /** The published groups, readable by the menu while the scanner prepares the next list. */
  class DuplicateRecordings {
    var groups: seq<DupRecord>
    var state: nat

    constructor ()
      ensures groups == [] && state == 0
    {
      groups := [];
      state := 0;
    }

    /**
     * The whole list is replaced in one step (Clear, then the copies added);
     * readers see the state advance.
     */
    method Replace(newGroups: seq<DupRecord>)
      modifies this
      ensures groups == newGroups && state == old(state) + 1
    {
      groups := newGroups;
      state := state + 1;
    }

    /**
     * `Remove(fileName)`: deletes every member of `fileName` from every group,
     * drops the groups left with fewer than two members or without a member
     * list, relabels the others with their new count, and advances the state
     * only when a member was deleted.
     */
    method Remove(fileName: Path)
      modifies this
      ensures groups == Pruned(old(groups), fileName)
      ensures state == old(state) + (if Mentions(old(groups), fileName) then 1 else 0)
    {
      var gs, removed := PruneAll(groups, fileName);
      groups := gs;
      if removed {
        state := state + 1;
      }
    }
  }

  /** The walk of `Remove` over the groups, deleting and relabelling as it goes. */
  method PruneAll(groups: seq<DupRecord>, f: Path) returns (gs: seq<DupRecord>, removed: bool)
    ensures gs == Pruned(groups, f)
    ensures removed <==> Mentions(groups, f)
  {
    gs := groups;
    ghost var k := 0;
    removed := false;
    var i := 0;
    while i < |gs|
      invariant 0 <= i <= |gs| && 0 <= k <= |groups|
      invariant gs[i..] == groups[k..]
      invariant gs[..i] + Pruned(gs[i..], f) == Pruned(groups, f)
      invariant removed <==> Mentions(groups[..k], f)
    {
      var kept, hit := PruneOne(gs[i], f);
      PruneStep(groups, gs, i, k, f);
      removed := removed || hit;
      if kept.Some? {
        gs := gs[..i] + [kept.value] + gs[i + 1..];
        i := i + 1;
      } else {
        gs := gs[..i] + gs[i + 1..];
      }
      k := k + 1;
    }
    assert k == |groups| && groups[..k] == groups;
  }

  /** One group of the walk: it is replaced by its pruned form or deleted, and the rest follows. */
  lemma PruneStep(groups: seq<DupRecord>, gs: seq<DupRecord>, i: nat, k: nat, f: Path)
    requires i < |gs| && k < |groups| && gs[i..] == groups[k..]
    requires gs[..i] + Pruned(gs[i..], f) == Pruned(groups, f)
    ensures PruneGroup(gs[i], f).Some? ==>
      var n := gs[..i] + [PruneGroup(gs[i], f).value] + gs[i + 1..];
      n[i + 1..] == groups[k + 1..] && n[..i + 1] + Pruned(n[i + 1..], f) == Pruned(groups, f)
    ensures PruneGroup(gs[i], f).None? ==>
      var n := gs[..i] + gs[i + 1..];
      n[i..] == groups[k + 1..] && n[..i] + Pruned(n[i..], f) == Pruned(groups, f)
    ensures Mentions(groups[..k + 1], f) <==>
      Mentions(groups[..k], f) || (gs[i].duplicates.List? && HasFile(gs[i].duplicates.items, f))
  {
    var g := gs[i];
    var rest := gs[i + 1..];
    assert gs[i..] == [g] + rest;
    assert groups[k + 1..] == rest by {
      assert groups[k..][1..] == groups[k + 1..];
    }
    assert groups[..k + 1] == groups[..k] + [g];
    MentionsSnoc(groups[..k], g, f);
    PrunedCons(g, rest, f);
    if PruneGroup(g, f).Some? {
      KeepGroup(gs[..i], PruneGroup(g, f).value, rest, f);
    } else {
      DropGroup(gs[..i], rest, f);
    }
  }

  lemma KeepGroup(done: seq<DupRecord>, h: DupRecord, rest: seq<DupRecord>, f: Path)
    ensures var n := done + [h] + rest;
      n[|done| + 1..] == rest && n[..|done| + 1] + Pruned(rest, f) == done + ([h] + Pruned(rest, f))
  {
    var n := done + [h] + rest;
    assert n[..|done| + 1] == done + [h];
    assert n[|done| + 1..] == rest;
  }

  lemma DropGroup(done: seq<DupRecord>, rest: seq<DupRecord>, f: Path)
    ensures var n := done + rest;
      n[|done|..] == rest && n[..|done|] == done
  {
  }

  /** The inner loop of `Remove`: members of `f` deleted in place while walking the list. */
  method EraseFile(members: seq<DupRecord>, f: Path) returns (items: seq<DupRecord>)
    ensures items == WithoutFile(members, f)
    ensures |items| < |members| <==> HasFile(members, f)
  {
    items := members;
    var j := 0;
    while j < |items|
      invariant 0 <= j <= |items| <= |members|
      invariant items[..j] + WithoutFile(items[j..], f) == WithoutFile(members, f)
      invariant HasFile(members, f) <==> (HasFile(items[j..], f) || |items| < |members|)
    {
      EraseStep(items, j, f);
      if items[j].fileName == f {
        items := items[..j] + items[j + 1..];
      } else {
        j := j + 1;
      }
    }
    assert items[..j] == items;
  }

  /** One position of the walk: a member of `f` is erased, any other is stepped over. */
  lemma EraseStep(items: seq<DupRecord>, j: nat, f: Path)
    requires j < |items|
    ensures items[j].fileName == f ==>
      var n := items[..j] + items[j + 1..];
      n[..j] + WithoutFile(n[j..], f) == items[..j] + WithoutFile(items[j..], f) &&
      HasFile(items[j..], f) && |n| < |items|
    ensures items[j].fileName != f ==>
      items[..j + 1] + WithoutFile(items[j + 1..], f) == items[..j] + WithoutFile(items[j..], f) &&
      (HasFile(items[j..], f) <==> HasFile(items[j + 1..], f))
  {
    var rest := items[j..];
    HeadStep(rest, f);
    assert rest[1..] == items[j + 1..];
    if items[j].fileName == f {
      var n := items[..j] + items[j + 1..];
      assert n[..j] == items[..j] && n[j..] == items[j + 1..];
    } else {
      assert items[..j + 1] == items[..j] + [items[j]];
    }
  }

  /**
   * The body of `Remove` for one group: the group as it is left (if it stays)
   * and whether one of its members was deleted.
   */
  method PruneOne(g: DupRecord, f: Path) returns (kept: Option<DupRecord>, hit: bool)
    ensures kept == PruneGroup(g, f)
    ensures hit <==> g.duplicates.List? && HasFile(g.duplicates.items, f)
  {
    kept := None;
    hit := false;
    if g.duplicates.List? {
      var items := EraseFile(g.duplicates.items, f);
      hit := |items| < |g.duplicates.items|;
      if |items| >= 2 {
        var g' := g.(duplicates := List(items));
        kept := Some(SetText(g', LabelFor(g', |items|)));
      }
    }
  }

  lemma PrunedCons(g: DupRecord, rest: seq<DupRecord>, f: Path)
    ensures Pruned([g] + rest, f) ==
      (if PruneGroup(g, f).Some? then [PruneGroup(g, f).value] else []) + Pruned(rest, f)
  {
    assert ([g] + rest)[0] == g && ([g] + rest)[1..] == rest;
  }

  /** One step of the walk: the first member decides, the rest follows. */
  lemma HeadStep(s: seq<DupRecord>, f: Path)
    requires s != []
    ensures WithoutFile(s, f) == (if s[0].fileName == f then [] else [s[0]]) + WithoutFile(s[1..], f)
    ensures HasFile(s, f) <==> s[0].fileName == f || HasFile(s[1..], f)
  {
  }

  lemma {:induction false} MentionsSnoc(groups: seq<DupRecord>, g: DupRecord, f: Path)
    ensures Mentions(groups + [g], f) <==>
      Mentions(groups, f) || (g.duplicates.List? && HasFile(g.duplicates.items, f))
  {
    if groups == [] {
      assert groups + [g] == [g];
    } else {
      assert (groups + [g])[0] == groups[0] && (groups + [g])[1..] == groups[1..] + [g];
      MentionsSnoc(groups[1..], g, f);
    }
  }
}
