/**
 * The "duplicate recordings" menu (cMenuDuplicates).
 *
 * The menu is a list of items: a separator line that heads each group and
 * cannot be selected, and one selectable entry per recording of the group,
 * holding the recording's file name, its text and a copy of its visibility
 * cache.  `current` is the index of the selected item, -1 for none.
 *
 * Two operations of the host's menu base class are used but not part of the
 * plugin: clearing the list also clears the selection, and deleting one item
 * leaves the selection on some selectable item or on none; which one is the
 * host's business, so the model lets it be any of them.
 */
module Menu {
  import opened Visibility
  import opened Recording

  datatype MenuItem = Separator(heading: Text) | Entry(fileName: Path, text: Text, vis: Cache)

  /** The separator shown when there is nothing to list ("0 duplicate recordings"). */
  const NoGroups: MenuItem := Separator(Label(DuplicateRecordings, 0))

  // ---- The layout: one separator per group, then its members ----

  /** A group as the menu shows it: its heading and its entries. */
  datatype Section = Section(heading: Text, entries: seq<MenuItem>)

  /** cMenuDuplicateItem: the member's file name and text, and a copy of its cache. */
  function EntryFor(r: DupRecord): MenuItem
  {
    Entry(r.fileName, r.text, r.vis)
  }

  function Members(g: DupRecord): seq<DupRecord>
  {
    if g.duplicates.List? then g.duplicates.items else []
  }

  function Entries(rs: seq<DupRecord>): seq<MenuItem>
  {
    seq(|rs|, k requires 0 <= k < |rs| => EntryFor(rs[k]))
  }

  function SectionOf(g: DupRecord): Section
  {
    Section(g.text, Entries(Members(g)))
  }

  function Sections(gs: seq<DupRecord>): seq<Section>
  {
    seq(|gs|, k requires 0 <= k < |gs| => SectionOf(gs[k]))
  }

  /** Sections whose entries are all selectable, as every section built from groups is. */
  predicate Proper(secs: seq<Section>)
  {
    forall k, j :: 0 <= k < |secs| && 0 <= j < |secs[k].entries| ==> secs[k].entries[j].Entry?
  }

  /** The items of a list of sections, in order. */
  function Layout(secs: seq<Section>): seq<MenuItem>
  {
    if secs == [] then [] else [Separator(secs[0].heading)] + secs[0].entries + Layout(secs[1..])
  }

  /** What `Set` lists for the published groups. */
  function Listed(groups: seq<DupRecord>): (items: seq<MenuItem>)
    ensures groups == [] ==> items == [NoGroups]
    ensures groups != [] ==> items == Layout(Sections(groups))
    ensures items != [] && items[0].Separator?
  {
    if groups == [] then [NoGroups] else Layout(Sections(groups))
  }

  /** The number of entries at the front of `s`, up to the first separator. */
  function RunLength(s: seq<MenuItem>): (n: nat)
    ensures n <= |s|
    ensures n < |s| ==> s[n].Separator?
  {
    if s != [] && s[0].Entry? then 1 + RunLength(s[1..]) else 0
  }

  /** The run is made of entries. */
  lemma {:induction false} RunIsEntries(s: seq<MenuItem>, k: nat)
    requires k < RunLength(s)
    ensures s[k].Entry?
  {
    if k > 0 {
      RunIsEntries(s[1..], k - 1);
    }
  }

  /** Reads a list that starts with a separator back into its sections. */
  function Parse(items: seq<MenuItem>): (secs: seq<Section>)
    requires items == [] || items[0].Separator?
    decreases |items|
  {
    if items == [] then []
    else
      var n := RunLength(items[1..]);
      [Section(items[0].heading, items[1..n + 1])] + Parse(items[n + 1..])
  }

  lemma {:induction false} RunLengthAppend(e: seq<MenuItem>, t: seq<MenuItem>)
    requires forall k :: 0 <= k < |e| ==> e[k].Entry?
    ensures RunLength(e + t) == |e| + RunLength(t)
  {
    if e != [] {
      assert (e + t)[1..] == e[1..] + t;
      RunLengthAppend(e[1..], t);
    } else {
      assert e + t == t;
    }
  }

  lemma {:induction false} LayoutAppend(a: seq<Section>, s: Section)
    ensures Layout(a + [s]) == Layout(a) + [Separator(s.heading)] + s.entries
  {
    if a == [] {
      assert a + [s] == [s];
    } else {
      assert (a + [s])[0] == a[0] && (a + [s])[1..] == a[1..] + [s];
      LayoutAppend(a[1..], s);
    }
  }

  /** Round trip: the sections of a layout are read back as they were. */
  lemma {:induction false} ParseLayout(secs: seq<Section>)
    requires Proper(secs)
    ensures Parse(Layout(secs)) == secs
  {
    if secs != [] {
      var h, e, rest := secs[0].heading, secs[0].entries, Layout(secs[1..]);
      LayoutCons(secs);
      ProperTail(secs);
      ParseAt(Layout(secs), h, e, rest);
      ParseLayout(secs[1..]);
      assert secs == [Section(h, e)] + secs[1..];
    }
  }

  /** How a non-empty layout begins. */
  lemma LayoutCons(secs: seq<Section>)
    requires secs != []
    ensures var e := secs[0].entries;
      var items := Layout(secs);
      var rest := Layout(secs[1..]);
      |items| == |e| + 1 + |rest| && items[0] == Separator(secs[0].heading) &&
      items[1..] == e + rest && items[1..|e| + 1] == e && items[|e| + 1..] == rest &&
      items[..|e| + 1] == [Separator(secs[0].heading)] + e && RunLength(rest) == 0 &&
      items == [Separator(secs[0].heading)] + e + rest && (rest == [] || rest[0].Separator?)
  {
    var e := secs[0].entries;
    var rest := Layout(secs[1..]);
    assert Layout(secs) == [Separator(secs[0].heading)] + e + rest;
    Framed(Separator(secs[0].heading), e, rest);
    if secs[1..] != [] {
      assert rest[0] == Separator(secs[1..][0].heading);
    }
  }

  /** How `[x] + e + r` splits back into its three parts. */
  lemma Framed<T>(x: T, e: seq<T>, r: seq<T>)
    ensures var s := [x] + e + r;
      |s| == |e| + 1 + |r| && s[0] == x && s[1..] == e + r && s[1..|e| + 1] == e &&
      s[|e| + 1..] == r && s[..|e| + 1] == [x] + e
  {
  }

  lemma LayoutPrepend(s: Section, secs: seq<Section>)
    ensures Layout([s] + secs) == [Separator(s.heading)] + s.entries + Layout(secs)
  {
    assert ([s] + secs)[0] == s && ([s] + secs)[1..] == secs;
  }

  /** A separator, its entries and a rest that starts a new section read back as one section in front. */
  lemma ParseAt(items: seq<MenuItem>, h: Text, e: seq<MenuItem>, rest: seq<MenuItem>)
    requires items == [Separator(h)] + e + rest
    requires forall k :: 0 <= k < |e| ==> e[k].Entry?
    requires RunLength(rest) == 0 && (rest == [] || rest[0].Separator?)
    ensures Parse(items) == [Section(h, e)] + Parse(rest)
  {
    Framed(Separator(h), e, rest);
    RunLengthAppend(e, rest);
  }

  lemma ProperTail(secs: seq<Section>)
    requires Proper(secs) && secs != []
    ensures Proper(secs[1..])
    ensures forall j :: 0 <= j < |secs[0].entries| ==> secs[0].entries[j].Entry?
  {
    forall k, j | 0 <= k < |secs[1..]| && 0 <= j < |secs[1..][k].entries|
      ensures secs[1..][k].entries[j].Entry?
    {
      assert secs[1..][k] == secs[k + 1];
    }
  }

  /** Round trip: a list that starts with a separator is the layout of its sections. */
  lemma {:induction false} LayoutParse(items: seq<MenuItem>)
    requires items == [] || items[0].Separator?
    ensures Layout(Parse(items)) == items
    decreases |items|
  {
    if items != [] {
      var n := RunLength(items[1..]);
      var h, e, rest := items[0].heading, items[1..n + 1], items[n + 1..];
      FrontSection(items, n, e, rest);
      ParseAt(items, h, e, rest);
      LayoutParse(rest);
      LayoutPrepend(Section(h, e), Parse(rest));
    }
  }

  /** A list that starts with a separator splits into it, the entries it heads, and a rest that starts a new section. */
  lemma FrontSection(items: seq<MenuItem>, n: nat, e: seq<MenuItem>, rest: seq<MenuItem>)
    requires items != [] && items[0].Separator?
    requires n == RunLength(items[1..]) && e == items[1..n + 1] && rest == items[n + 1..]
    ensures items == [Separator(items[0].heading)] + e + rest
    ensures forall k :: 0 <= k < |e| ==> e[k].Entry?
    ensures RunLength(rest) == 0 && (rest == [] || rest[0].Separator?)
  {
    var r := items[1..];
    forall k | 0 <= k < n ensures e[k].Entry? {
      RunIsEntries(r, k);
    }
    assert items == [items[0]] + e + rest;
    if n < |r| {
      assert rest[0] == r[n];
    }
  }

  /** Every listed group reads back as a section of its members' entries. */
  lemma ListedParses(groups: seq<DupRecord>)
    requires groups != []
    ensures Parse(Listed(groups)) == Sections(groups)
  {
    ParseLayout(Sections(groups));
  }

  // ---- Dropping the groups that became too small ----

  /**
   * The list with every separator removed together with its entries when it
   * heads fewer than two of them; entries before the first separator stay.
   */
  function Tidy(s: seq<MenuItem>): seq<MenuItem>
    decreases |s|
  {
    if s == [] then []
    else if s[0].Entry? then [s[0]] + Tidy(s[1..])
    else
      var n := RunLength(s[1..]);
      (if n < 2 then [] else s[..n + 1]) + Tidy(s[n + 1..])
  }

  /** Every separator heads at least two entries. */
  predicate Grouped(t: seq<MenuItem>)
  {
    forall k :: 0 <= k < |t| && t[k].Separator? ==> RunLength(t[k + 1..]) >= 2
  }

  /** The sections that keep at least two entries, in order. */
  function Kept(secs: seq<Section>): (r: seq<Section>)
    ensures |r| <= |secs|
    ensures forall k :: 0 <= k < |r| ==> |r[k].entries| >= 2 && r[k] in secs
  {
    if secs == [] then []
    else (if |secs[0].entries| >= 2 then [secs[0]] else []) + Kept(secs[1..])
  }

  lemma {:induction false} TidySplit(s: seq<MenuItem>)
    ensures Tidy(s) == s[..RunLength(s)] + Tidy(s[RunLength(s)..])
    decreases |s|
  {
    if s != [] && s[0].Entry? {
      TidySplit(s[1..]);
      var n := RunLength(s[1..]);
      TidyEntry(s);
      Regroup(s, n, Tidy(s[n + 1..]));
    } else {
      assert s[..0] == [] && s[0..] == s;
    }
  }

  /** An entry in front is kept as it is. */
  lemma TidyEntry(s: seq<MenuItem>)
    requires s != [] && s[0].Entry?
    ensures Tidy(s) == [s[0]] + Tidy(s[1..])
  {
  }

  lemma Regroup<T>(s: seq<T>, n: nat, t: seq<T>)
    requires n < |s|
    ensures s[1..][n..] == s[n + 1..]
    ensures [s[0]] + (s[1..][..n] + t) == s[..n + 1] + t
  {
    assert s[..n + 1] == [s[0]] + s[1..][..n];
  }

  lemma {:induction false} TidyFromSeparator(s: seq<MenuItem>)
    requires s == [] || s[0].Separator?
    ensures RunLength(Tidy(s)) == 0
    decreases |s|
  {
    if s != [] {
      var n := RunLength(s[1..]);
      if n < 2 {
        assert Tidy(s) == Tidy(s[n + 1..]);
        TidyFromSeparator(s[n + 1..]);
      } else {
        assert Tidy(s)[0] == s[0];
      }
    }
  }

  lemma {:induction false} RunPrefixAppend(s: seq<MenuItem>, t: seq<MenuItem>)
    ensures RunLength(s[..RunLength(s)] + t) == RunLength(s) + RunLength(t)
    decreases |s|
  {
    var n := RunLength(s);
    if n == 0 {
      assert s[..0] + t == t;
    } else {
      RunPrefixAppend(s[1..], t);
      assert s[..n] + t == [s[0]] + (s[1..][..n - 1] + t);
    }
  }

  /** One backward step of `Del`'s sweep, at an entry: it is kept and counted. */
  lemma SweepEntry(s: seq<MenuItem>)
    requires s != [] && s[0].Entry?
    ensures Tidy(s) == [s[0]] + Tidy(s[1..])
    ensures RunLength(Tidy(s)) == RunLength(Tidy(s[1..])) + 1
  {
    assert ([s[0]] + Tidy(s[1..]))[1..] == Tidy(s[1..]);
  }

  /**
   * One backward step of `Del`'s sweep, at a separator, over a tail `t` that
   * is already swept: the separator keeps its entries only when it heads at
   * least two of them.
   */
  lemma SweepSeparator(s: seq<MenuItem>)
    requires s != [] && s[0].Separator?
    ensures RunLength(Tidy(s[1..])) < 2 ==> Tidy(s) == Tidy(s[1..])[RunLength(Tidy(s[1..]))..]
    ensures RunLength(Tidy(s[1..])) >= 2 ==> Tidy(s) == [s[0]] + Tidy(s[1..])
    ensures RunLength(Tidy(s)) == 0
  {
    if RunLength(s[1..]) < 2 {
      SweepSmall(s);
    } else {
      SweepLarge(s);
    }
    TidyFromSeparator(s);
  }

  /** A separator heading fewer than two entries goes, with them. */
  lemma SweepSmall(s: seq<MenuItem>)
    requires s != [] && s[0].Separator? && RunLength(s[1..]) < 2
    ensures RunLength(Tidy(s[1..])) == RunLength(s[1..])
    ensures Tidy(s) == Tidy(s[1..])[RunLength(s[1..])..]
  {
    var r := s[1..];
    var n := RunLength(r);
    TailSwept(r);
    assert r[n..] == s[n + 1..];
    TidyAtSeparator(s);
  }

  /** A separator heading two entries or more stays, with them. */
  lemma SweepLarge(s: seq<MenuItem>)
    requires s != [] && s[0].Separator? && RunLength(s[1..]) >= 2
    ensures RunLength(Tidy(s[1..])) == RunLength(s[1..])
    ensures Tidy(s) == [s[0]] + Tidy(s[1..])
  {
    var n := RunLength(s[1..]);
    TailSweptAfter(s);
    TidyAtSeparator(s);
    HeadPrefix(s, n);
    ConsAssoc(s[0], s[1..][..n], Tidy(s[n + 1..]));
  }

  /** `TailSwept` for the items after a separator. */
  lemma TailSweptAfter(s: seq<MenuItem>)
    requires s != []
    ensures Tidy(s[1..]) == s[1..][..RunLength(s[1..])] + Tidy(s[RunLength(s[1..]) + 1..])
    ensures RunLength(Tidy(s[1..])) == RunLength(s[1..])
  {
    var r := s[1..];
    TailSwept(r);
    assert r[RunLength(r)..] == s[RunLength(r) + 1..];
  }

  lemma ConsAssoc(a: MenuItem, p: seq<MenuItem>, x: seq<MenuItem>)
    ensures ([a] + p) + x == [a] + (p + x)
  {
  }

  /** Sweeping keeps the entries in front of the first separator, and their number. */
  lemma TailSwept(r: seq<MenuItem>)
    ensures var n := RunLength(r);
      var t := Tidy(r);
      RunLength(t) == n && n <= |t| && t == r[..n] + Tidy(r[n..]) && t[n..] == Tidy(r[n..])
  {
    var n := RunLength(r);
    var u := Tidy(r[n..]);
    TidySplit(r);
    TidyFromSeparator(r[n..]);
    RunPrefixAppend(r, u);
    assert (r[..n] + u)[n..] == u;
  }

  lemma HeadPrefix(s: seq<MenuItem>, n: nat)
    requires n < |s|
    ensures s[..n + 1] == [s[0]] + s[1..][..n]
  {
  }

  lemma TidyAtSeparator(s: seq<MenuItem>)
    requires s != [] && s[0].Separator?
    ensures RunLength(s[1..]) < 2 ==> Tidy(s) == Tidy(s[RunLength(s[1..]) + 1..])
    ensures RunLength(s[1..]) >= 2 ==> Tidy(s) == s[..RunLength(s[1..]) + 1] + Tidy(s[RunLength(s[1..]) + 1..])
  {
    var n := RunLength(s[1..]);
    TidyUnfold(s);
    var t := Tidy(s[n + 1..]);
    if n < 2 {
      assert [] + t == t;
    }
  }

  lemma TidyUnfold(s: seq<MenuItem>)
    requires s != [] && s[0].Separator?
    ensures var n := RunLength(s[1..]);
      Tidy(s) == (if n < 2 then [] else s[..n + 1]) + Tidy(s[n + 1..])
  {
  }

  /** After the sweep, every separator heads at least two entries. */
  lemma {:induction false} TidyGrouped(s: seq<MenuItem>)
    ensures Grouped(Tidy(s))
    decreases |s|
  {
    if s != [] {
      if s[0].Entry? {
        TidyGrouped(s[1..]);
        SweepEntry(s);
        GroupedCons(s[0], Tidy(s[1..]));
      } else {
        var n := RunLength(s[1..]);
        TidyGrouped(s[n + 1..]);
        TidyAtSeparator(s);
        if n >= 2 {
          var p := s[..n + 1];
          forall k | 1 <= k < |p| ensures p[k].Entry? {
            RunIsEntries(s[1..], k - 1);
          }
          GroupedPrepend(p, Tidy(s[n + 1..]));
        }
      }
    }
  }

  lemma GroupedCons(x: MenuItem, t: seq<MenuItem>)
    requires x.Entry? && Grouped(t)
    ensures Grouped([x] + t)
  {
    forall k | 0 <= k < |[x] + t| && ([x] + t)[k].Separator?
      ensures RunLength(([x] + t)[k + 1..]) >= 2
    {
      assert ([x] + t)[k + 1..] == t[k..];
    }
  }

  /** A separator heading at least two entries, in front of a grouped list. */
  lemma GroupedPrepend(p: seq<MenuItem>, t: seq<MenuItem>)
    requires |p| >= 3 && forall k :: 1 <= k < |p| ==> p[k].Entry?
    requires Grouped(t)
    ensures Grouped(p + t)
  {
    forall k | 0 <= k < |p + t| && (p + t)[k].Separator?
      ensures RunLength((p + t)[k + 1..]) >= 2
    {
      if k == 0 {
        assert (p + t)[1..] == p[1..] + t;
        RunLengthAppend(p[1..], t);
      } else {
        assert k >= |p|;
        assert (p + t)[k + 1..] == t[k - |p| + 1..];
      }
    }
  }

  /** A list in which every separator already heads two entries is left as it is. */
  lemma {:induction false} TidyKeepsGrouped(s: seq<MenuItem>)
    requires Grouped(s)
    ensures Tidy(s) == s
    decreases |s|
  {
    if s != [] {
      var m := if s[0].Entry? then 1 else RunLength(s[1..]) + 1;
      assert Grouped(s[m..]) by {
        forall k | 0 <= k < |s[m..]| && s[m..][k].Separator?
          ensures RunLength(s[m..][k + 1..]) >= 2
        {
          assert s[m..][k] == s[k + m];
          assert s[m..][k + 1..] == s[k + m + 1..];
        }
      }
      TidyKeepsGrouped(s[m..]);
      if s[0].Separator? {
        assert RunLength(s[1..]) >= 2;
        assert s[..m] + s[m..] == s;
      }
    }
  }

  /** Sweeping a layout drops exactly the sections with fewer than two entries, keeping the others in order. */
  lemma {:induction false} TidyLayout(secs: seq<Section>)
    requires Proper(secs)
    ensures Tidy(Layout(secs)) == Layout(Kept(secs))
  {
    if secs != [] {
      ProperTail(secs);
      TidyLayout(secs[1..]);
      TidyLayoutStep(secs);
    }
  }

  /** One section of `TidyLayout`, given the result for the sections after it. */
  lemma TidyLayoutStep(secs: seq<Section>)
    requires secs != [] && Proper(secs)
    requires Tidy(Layout(secs[1..])) == Layout(Kept(secs[1..]))
    ensures Tidy(Layout(secs)) == Layout(Kept(secs))
  {
    var e := secs[0].entries;
    var n := |e|;
    var items := Layout(secs);
    assert RunLength(items[1..]) == n by {
      LayoutCons(secs);
      ProperTail(secs);
      RunLengthAppend(e, Layout(secs[1..]));
    }
    assert items[n + 1..] == Layout(secs[1..]) && items[..n + 1] == [Separator(secs[0].heading)] + e by {
      LayoutCons(secs);
    }
    TidyAtSeparator(items);
    KeptCons(secs);
    if n >= 2 {
      LayoutPrepend(secs[0], Kept(secs[1..]));
    }
  }

  lemma KeptCons(secs: seq<Section>)
    requires secs != []
    ensures |secs[0].entries| >= 2 ==> Kept(secs) == [secs[0]] + Kept(secs[1..])
    ensures |secs[0].entries| < 2 ==> Kept(secs) == Kept(secs[1..])
  {
    if |secs[0].entries| < 2 {
      assert [] + Kept(secs[1..]) == Kept(secs[1..]);
    }
  }

  /** The slices `Del`'s walk works with, at item `i` of `orig` in front of a swept tail `t`. */
  lemma Splice(orig: seq<MenuItem>, t: seq<MenuItem>, i: nat, d: nat)
    requires i < |orig|
    ensures var items := orig[..i + 1] + t;
      items[i] == orig[i] && orig[i..][0] == orig[i] && orig[i..][1..] == orig[i + 1..] &&
      items == orig[..i] + ([orig[i]] + t) &&
      (d <= |t| ==> items[..i] + items[i + d + 1..] == orig[..i] + t[d..])
  {
    var items := orig[..i + 1] + t;
    assert orig[..i + 1] == orig[..i] + [orig[i]];
    if d <= |t| {
      assert items[..i] == orig[..i];
      assert items[i + d + 1..] == t[d..];
    }
  }

  // ---- Selection ----

  /** The nearest selectable item at or before `k`, if any. */
  function Nearest(items: seq<MenuItem>, k: int): (r: Option<nat>)
    requires k < |items|
    ensures r.Some? ==> r.value <= k && items[r.value].Entry?
    ensures r.Some? ==> forall j :: r.value < j <= k ==> items[j].Separator?
    ensures r.None? ==> forall j :: 0 <= j <= k ==> items[j].Separator?
    decreases k + 1
  {
    if k < 0 then None else if items[k].Entry? then Some(k) else Nearest(items, k - 1)
  }

  /** The item `SetCurrentIndex(index)` selects: none for a negative index, else the nearest at or before it. */
  function Target(items: seq<MenuItem>, index: int): Option<nat>
  {
    if index < 0 then None else Nearest(items, if index >= |items| then |items| - 1 else index)
  }

  /** The last entry of `items` for the recording `f`, or -1. */
  function LastMatch(items: seq<MenuItem>, f: Option<Path>): (k: int)
    ensures -1 <= k < |items|
    ensures k >= 0 ==> items[k].Entry? && f == Some(items[k].fileName)
    ensures forall j :: k < j < |items| ==> !(items[j].Entry? && f == Some(items[j].fileName))
  {
    if items == [] then -1
    else if items[|items| - 1].Entry? && f == Some(items[|items| - 1].fileName) then |items| - 1
    else LastMatch(items[..|items| - 1], f)
  }

  /** `c` is a possible selection of `items`: none, or a selectable item. */
  predicate Selection(items: seq<MenuItem>, c: int)
  {
    c == -1 || (0 <= c < |items| && items[c].Entry?)
  }

  // ---- Help keys ----

  datatype BlueButton = Hide | Unhide

  /** The colour buttons: none, or Play, Setup, Delete and the blue one. */
  datatype HelpLine = NoHelp | Buttons(blue: BlueButton)

  /** 0 without a current item, 2 when the current recording reads as hidden, 1 otherwise. */
  function HelpKeysFor(items: seq<MenuItem>, current: int, markers: set<Path>): (n: int)
    requires current == -1 || (0 <= current < |items| && items[current].Entry?)
    ensures 0 <= n <= 2
    ensures n == 0 <==> current == -1
    ensures n == 2 <==> current != -1 && ReadState(items[current].vis, markers) == Hidden
  {
    if current == -1 then 0
    else if ReadState(items[current].vis, markers) == Hidden then 2
    else 1
  }

  function HelpLineFor(n: int): HelpLine
  {
    if n == 0 then NoHelp else Buttons(if n == 1 then Hide else Unhide)
  }

  /**
   * The blue button offers what `ToggleHidden` does: "Unhide" exactly when the
   * current recording reads as hidden, which is when the toggle writes
   * "visible".
   */
  lemma BlueButtonMatchesToggle(items: seq<MenuItem>, current: int, markers: set<Path>)
    requires 0 <= current < |items| && items[current].Entry?
    ensures HelpLineFor(HelpKeysFor(items, current, markers)) ==
      Buttons(if ReadState(items[current].vis, markers) == Hidden then Unhide else Hide)
  {
  }

  lemma SectionsSnoc(groups: seq<DupRecord>, g: nat)
    requires g < |groups|
    ensures Layout(Sections(groups[..g + 1])) ==
      Layout(Sections(groups[..g])) + [Separator(SectionOf(groups[g]).heading)] + SectionOf(groups[g]).entries
  {
    assert Sections(groups[..g + 1]) == Sections(groups[..g]) + [SectionOf(groups[g])];
    LayoutAppend(Sections(groups[..g]), SectionOf(groups[g]));
  }

  lemma EntriesSnoc(ms: seq<DupRecord>, m: nat)
    requires m < |ms|
    ensures Entries(ms[..m + 1]) == Entries(ms[..m]) + [EntryFor(ms[m])]
  {
  }

  /** Appending an item moves the last match to it exactly when it is an entry of the recording. */
  lemma LastMatchSnoc(items: seq<MenuItem>, x: MenuItem, f: Option<Path>)
    ensures x.Entry? && f == Some(x.fileName) ==> LastMatch(items + [x], f) == |items|
    ensures !(x.Entry? && f == Some(x.fileName)) ==> LastMatch(items + [x], f) == LastMatch(items, f)
  {
    assert (items + [x])[..|items|] == items;
  }

  /** The inner loop of `Set`: an entry per member, in order, selecting each one of the recording `recent`. */
  method AppendEntries(start: seq<MenuItem>, cur0: int, ms: seq<DupRecord>, recent: Option<Path>)
    returns (its: seq<MenuItem>, cur: int)
    requires cur0 == LastMatch(start, recent)
    ensures its == start + Entries(ms)
    ensures cur == LastMatch(its, recent)
  {
    its, cur := start, cur0;
    for m := 0 to |ms|
      invariant its == start + Entries(ms[..m])
      invariant cur == LastMatch(its, recent)
    {
      EntriesSnoc(ms, m);
      LastMatchSnoc(its, EntryFor(ms[m]), recent);
      if recent == Some(ms[m].fileName) {
        cur := |its|;
      }
      its := its + [EntryFor(ms[m])];
    }
    assert ms[..|ms|] == ms;
  }

  /** Where `Del`'s walk starts (nothing swept yet) and where it ends (everything swept). */
  lemma SweepEnds(orig: seq<MenuItem>)
    ensures orig[..|orig|] + Tidy(orig[|orig|..]) == orig && RunLength(Tidy(orig[|orig|..])) == 0
    ensures orig[..0] + Tidy(orig[0..]) == Tidy(orig)
  {
    assert orig[..|orig|] == orig && orig[|orig|..] == [];
    assert orig[..0] == [] && orig[0..] == orig;
  }

  // ---- The menu ----

  class DuplicatesMenu {
    var items: seq<MenuItem>
    var current: int
    var helpKeys: int
    var help: HelpLine

    /** The selection is none or a selectable item. */
    predicate Valid()
      reads this
    {
      Selection(items, current)
    }

    /** The buttons shown are the ones for `helpKeys`, once it has been computed. */
    predicate HelpAgrees()
      reads this
    {
      helpKeys == -1 || help == HelpLineFor(helpKeys)
    }

    /** A new menu lists the published groups, selects the last replayed recording and shows its buttons. */
    constructor (groups: seq<DupRecord>, lastReplayed: Option<Path>, fs: FileSystem)
      ensures items == Listed(groups)
      ensures current == LastMatch(items, lastReplayed)
      ensures Valid() && HelpAgrees()
      ensures helpKeys == HelpKeysFor(items, current, fs.markers) && help == HelpLineFor(helpKeys)
    {
      items := [];
      current := -1;
      helpKeys := -1;
      help := NoHelp;
      new;
      Set(groups, false, lastReplayed);
      SetHelpKeys(fs);
    }

    /**
     * Rebuilds the list from the published groups.  A refresh keeps the
     * selection at the same position (or the nearest selectable item before
     * it); otherwise the last entry of the recording replayed last is selected.
     */
    method Set(groups: seq<DupRecord>, refresh: bool, lastReplayed: Option<Path>)
      modifies this`items, this`current
      ensures items == Listed(groups)
      ensures !refresh ==> current == LastMatch(items, lastReplayed)
      ensures refresh ==> current == (match Target(items, old(current))
        case Some(k) => k
        case None => -1)
      ensures Valid()
    {
      var recent: Option<Path> := if refresh then None else lastReplayed;
      var keep := current;
      Fill(groups, recent);
      if |items| == 0 {
        items := [NoGroups];
        assert LastMatch(items, recent) == -1;
      }
      if refresh {
        SetCurrentIndex(keep);
      }
    }

    /** The loop of `Set`: the list cleared, then each group added in order. */
    method Fill(groups: seq<DupRecord>, recent: Option<Path>)
      modifies this`items, this`current
      ensures items == Layout(Sections(groups))
      ensures items == [] <==> groups == []
      ensures current == LastMatch(items, recent)
    {
      items := [];
      current := -1;
      for g := 0 to |groups|
        invariant items == Layout(Sections(groups[..g]))
        invariant current == LastMatch(items, recent)
      {
        SectionsSnoc(groups, g);
        AddGroup(groups[g], recent);
      }
      assert groups[..|groups|] == groups;
      if groups != [] {
        assert Listed(groups) == items;
      }
    }

    /** One group of `Set`: its separator, then an entry per member, selecting a match. */
    method AddGroup(g: DupRecord, recent: Option<Path>)
      requires current == LastMatch(items, recent)
      modifies this`items, this`current
      ensures items == old(items) + [Separator(SectionOf(g).heading)] + SectionOf(g).entries
      ensures current == LastMatch(items, recent)
    {
      LastMatchSnoc(items, Separator(g.text), recent);
      var its, cur := AppendEntries(items + [Separator(g.text)], current, Members(g), recent);
      items, current := its, cur;
    }

    /**
     * `SetCurrentIndex(index)`: a negative index changes nothing; otherwise the
     * index is clamped to the last item and the nearest selectable item at or
     * before it becomes current, if there is one.
     */
    method SetCurrentIndex(index: int)
      modifies this`current
      ensures Target(items, index).Some? ==> current == Target(items, index).value
      ensures Target(items, index).None? ==> current == old(current)
    {
      if index >= 0 {
        var k := index;
        if k >= |items| {
          k := |items| - 1;
        }
        while k >= 0
          invariant -1 <= k < |items|
          invariant Nearest(items, k) == Target(items, index)
          decreases k
        {
          if items[k].Entry? {
            current := k;
            break;
          }
          k := k - 1;
        }
      }
    }

    /** The host's single-item delete: the item goes, the selection stays valid. */
    method DelItem(index: int)
      requires 0 <= index < |items|
      modifies this`items, this`current
      ensures items == old(items[..index] + items[index + 1..])
      ensures Valid()
    {
      items := items[..index] + items[index + 1..];
      assert Selection(items, -1);
      var c :| Selection(items, c);
      current := c;
    }

    /** The inner loop of `Del`: the separator at `i` and the `d` entries after it. */
    method DropSection(i: int, d: nat)
      requires 0 <= i && i + d < |items| && Valid()
      modifies this`items, this`current
      ensures items == old(items[..i] + items[i + d + 1..])
      ensures Valid()
    {
      ghost var before := items;
      for j := 0 to d + 1
        invariant items == before[..i] + before[i + j..]
        invariant Valid()
      {
        DelItem(i);
        assert before[i + j..][1..] == before[i + j + 1..];
      }
    }

    /**
     * `Del(index)`: deletes the item, then walks the list backwards counting
     * the entries below each separator and deletes every separator that heads
     * fewer than two, together with those entries; finally reselects around
     * `index`.
     */
    method Del(index: int)
      requires 0 <= index < |items|
      modifies this`items, this`current
      ensures items == Tidy(old(items[..index] + items[index + 1..]))
      ensures Grouped(items)
      ensures Valid()
      ensures Target(items, index).Some? ==> current == Target(items, index).value
    {
      DelItem(index);
      Sweep();
      TidyGrouped(old(items[..index] + items[index + 1..]));
      ghost var swept := items;
      SetCurrentIndex(index);
      assert items == swept;
    }

    /** The backward walk of `Del`, from the last item to the first. */
    method Sweep()
      requires Valid()
      modifies this`items, this`current
      ensures items == Tidy(old(items))
      ensures Valid()
    {
      ghost var orig := items;
      var d := 0;
      var i := |items| - 1;
      SweepEnds(orig);
      while i >= 0
        invariant -1 <= i < |orig|
        invariant items == orig[..i + 1] + Tidy(orig[i + 1..])
        invariant d == RunLength(Tidy(orig[i + 1..]))
        invariant Valid()
        decreases i
      {
        d := SweepAt(i, d, orig);
        i := i - 1;
      }
    }

    /** One step of `Del`'s backward walk, at item `i` of the list `orig` it started from. */
    method SweepAt(i: int, d: nat, ghost orig: seq<MenuItem>) returns (d': nat)
      requires 0 <= i < |orig| && Valid()
      requires items == orig[..i + 1] + Tidy(orig[i + 1..])
      requires d == RunLength(Tidy(orig[i + 1..]))
      modifies this`items, this`current
      ensures items == orig[..i] + Tidy(orig[i..])
      ensures d' == RunLength(Tidy(orig[i..]))
      ensures Valid()
    {
      ghost var t := Tidy(orig[i + 1..]);
      Splice(orig, t, i, d);
      if items[i].Separator? {
        SweepSeparator(orig[i..]);
        if d < 2 {
          DropSection(i, d);
        }
        d' := 0;
      } else {
        SweepEntry(orig[i..]);
        d' := d + 1;
      }
    }

    /**
     * `SetHelpKeys`: recomputes which buttons the current item calls for,
     * reading its visibility through a copy (the item itself keeps its cache),
     * and replaces the help line only when that differs from the last one.
     */
    method SetHelpKeys(fs: FileSystem)
      requires Valid() && HelpAgrees()
      modifies this`helpKeys, this`help
      ensures helpKeys == HelpKeysFor(items, current, fs.markers)
      ensures old(helpKeys) == helpKeys ==> help == old(help)
      ensures help == HelpLineFor(helpKeys) && HelpAgrees()
    {
      var newHelpKeys := 0;
      if current != -1 {
        newHelpKeys := 1;
        if ReadState(items[current].vis, fs.markers) == Hidden {
          newHelpKeys := 2;
        }
      }
      if newHelpKeys != helpKeys {
        help := HelpLineFor(newHelpKeys);
        helpKeys := newHelpKeys;
      }
    }

    /**
     * `ToggleHidden`: with no sub-menu open, a current item and the user's
     * confirmation, writes the opposite of what the item reads through a copy
     * of its cache.  When that succeeds and hidden recordings are not shown,
     * the item is deleted as by `Del`; then the buttons are recomputed.  A
     * failed write changes nothing.
     */
    method ToggleHidden(hasSubMenu: bool, confirmed: bool, showHidden: bool, ioOk: bool, fs: FileSystem)
      requires Valid() && HelpAgrees()
      modifies this, fs
      ensures Valid() && HelpAgrees()
      ensures var acts := !hasSubMenu && |old(items)| > 0 && old(current) != -1 && confirmed;
        !acts ==> (items == old(items) && current == old(current) && helpKeys == old(helpKeys) &&
          help == old(help) && fs.markers == old(fs.markers))
      ensures !hasSubMenu && |old(items)| > 0 && old(current) != -1 && confirmed ==>
        var c := old(items)[old(current)].vis;
        var r := WriteOutcome(c, ReadState(c, old(fs.markers)) == Hidden, old(fs.markers), ioOk);
        fs.markers == r.markers &&
        (!r.ok ==> items == old(items) && current == old(current) && helpKeys == old(helpKeys) && help == old(help)) &&
        (r.ok && showHidden ==> items == old(items) && current == old(current)) &&
        (r.ok && !showHidden ==>
          items == Tidy(old(items)[..old(current)] + old(items)[old(current) + 1..]) && Grouped(items) &&
          (Target(items, old(current)).Some? ==> current == Target(items, old(current)).value)) &&
        (r.ok ==> helpKeys == HelpKeysFor(items, current, fs.markers))
    {
      if hasSubMenu || |items| == 0 {
        return;
      }
      if current != -1 {
        var c := items[current].vis;
        var hidden := ReadState(c, fs.markers) == Hidden;
        if confirmed {
          var r := WriteOutcome(c, hidden, fs.markers, ioOk);
          fs.markers := r.markers;
          if r.ok {
            if !showHidden {
              Del(current);
            }
            SetHelpKeys(fs);
          }
        }
      }
    }
  }
}
