/**
 * The comparison record of the duplicates plugin (cDuplicateRecording) and
 * the duplicate matcher.
 *
 * A record is built from one library recording: its file name, its list
 * title, its title (only when titles are compared) and a matching key made of
 * short text and description with every `|` and every blank removed.  Group
 * heads are records too: they carry a label and a member list.  Records are
 * values here; where the plugin updates a record in place (the checked flag,
 * the label, the cached visibility) the model replaces the value.
 */
module Recording {
  import opened Visibility
  import opened Config

  datatype Option<T> = None | Some(value: T)

  /** What the library tells about one recording. */
  datatype RecordingInfo = RecordingInfo(
    fileName: Path,
    listTitle: string,          // the recording's title as the recordings list shows it
    title: Option<string>,
    shortText: Option<string>,
    description: Option<string>)

  /** The two labels a group head carries, with the count they show. */
  datatype LabelKind = DuplicateRecordings | WithoutDescription

  /** A record's display text: empty, a recording's list title, or a group label. */
  datatype Text = NoText | ListTitle(s: string) | Label(kind: LabelKind, count: nat)

  /** A member list: absent (a null pointer) or a list of records. */
  datatype MemberList = Null | List(items: seq<DupRecord>)

  datatype DupRecord = DupRecord(
    checked: bool,
    vis: Cache,
    fileName: Path,
    text: Text,
    title: string,
    description: string,
    duplicates: MemberList)

  // ---- the matching key ----

  /** `s` with every `c` removed, the rest in order. */
  function Without(s: string, c: char): (r: string)
    ensures c !in r && |r| <= |s|
  {
    if s == [] then []
    else if s[0] == c then Without(s[1..], c)
    else [s[0]] + Without(s[1..], c)
  }

  lemma {:induction false} WithoutAppend(a: string, b: string, c: char)
    ensures Without(a + b, c) == Without(a, c) + Without(b, c)
  {
    if a != [] {
      assert (a + b)[0] == a[0] && (a + b)[1..] == a[1..] + b;
      WithoutAppend(a[1..], b, c);
      if a[0] == c {
        assert Without(a + b, c) == Without(a[1..] + b, c);
      } else {
        assert Without(a + b, c) == [a[0]] + Without(a[1..] + b, c);
        assert Without(a, c) == [a[0]] + Without(a[1..], c);
      }
    } else {
      assert a + b == b;
    }
  }

  lemma {:induction false} WithoutAbsent(s: string, c: char)
    requires c !in s
    ensures Without(s, c) == s
  {
    if s != [] {
      WithoutAbsent(s[1..], c);
    }
  }

  /** Removing one occurrence of `c` does not change what remains once all are removed. */
  lemma WithoutErase(s: string, k: nat, c: char)
    requires k < |s| && s[k] == c
    ensures Without(s[..k] + s[k + 1..], c) == Without(s, c)
  {
    assert s == s[..k] + ([s[k]] + s[k + 1..]);
    WithoutAppend(s[..k], [s[k]] + s[k + 1..], c);
    WithoutAppend(s[..k], s[k + 1..], c);
    assert ([s[k]] + s[k + 1..])[1..] == s[k + 1..];
  }

  /** The key's characters: everything but `|` and blanks. */
  predicate KeyChar(x: char)
  {
    x != '|' && x != ' '
  }

  /** Reference definition of the key: one pass keeping the key characters in order. */
  function KeepKeyChars(s: string): string
  {
    if s == [] then [] else (if KeyChar(s[0]) then [s[0]] else []) + KeepKeyChars(s[1..])
  }

  /** The matching key of a text: first every `|`, then every blank removed. */
  function Normalized(s: string): string
  {
    Without(Without(s, '|'), ' ')
  }

  /**
   * The key holds neither `|` nor a blank, and it is exactly the text's other
   * characters in their order.
   */
  lemma {:induction false} NormalizedIsKey(s: string)
    ensures '|' !in Normalized(s) && ' ' !in Normalized(s)
    ensures Normalized(s) == KeepKeyChars(s)
  {
    if s != [] {
      NormalizedIsKey(s[1..]);
      assert s == [s[0]] + s[1..];
      WithoutAppend([s[0]], s[1..], '|');
      WithoutAppend(Without([s[0]], '|'), Without(s[1..], '|'), ' ');
      var w := Without(Without(s, '|'), ' ');
      assert '|' !in w by {
        assert '|' !in Without(s, '|');
        WithoutKeeps(Without(s, '|'), ' ', '|');
      }
    }
  }

  lemma {:induction false} WithoutKeeps(s: string, c: char, d: char)
    requires d !in s
    ensures d !in Without(s, c)
  {
    if s != [] {
      WithoutKeeps(s[1..], c, d);
    }
  }

  /** Position of the first `c` in `s` (std::string::find). */
  function IndexOf(s: string, c: char): (r: Option<nat>)
    ensures r.Some? ==> r.value < |s| && s[r.value] == c && c !in s[..r.value]
    ensures r.None? ==> c !in s
  {
    if s == [] then None
    else if s[0] == c then Some(0)
    else match IndexOf(s[1..], c)
      case None => None
      case Some(k) => Some(k + 1)
  }

  /** The erase loop of the constructor: find the first `c`, erase it, until none is left. */
  method EraseAll(s: string, c: char) returns (r: string)
    ensures r == Without(s, c)
    ensures c !in r
  {
    r := s;
    while true
      invariant Without(r, c) == Without(s, c)
      decreases |r|
    {
      var found := IndexOf(r, c);
      if found.None? {
        break;
      }
      WithoutErase(r, found.value, c);
      r := r[..found.value] + r[found.value + 1..];
    }
    WithoutAbsent(r, c);
  }

  function TextOr(t: Option<string>): string
  {
    if t.Some? then t.value else ""
  }

  /** The record the constructor builds from one recording. */
  function FromRecording(info: RecordingInfo, cfg: Settings): (r: DupRecord)
  {
    DupRecord(
      false,
      NewCache(info.fileName),
      info.fileName,
      ListTitle(info.listTitle),
      if cfg.compareTitles && info.title.Some? then info.title.value else "",
      Normalized(TextOr(info.shortText) + TextOr(info.description)),
      Null)
  }

  /**
   * cDuplicateRecording(const cRecording *): short text then description,
   * `|` and blanks erased in place; the title only when titles are compared;
   * no member list.
   */
  method NewRecord(info: RecordingInfo, cfg: Settings) returns (r: DupRecord)
    ensures r == FromRecording(info, cfg)
    ensures r.description == KeepKeyChars(TextOr(info.shortText) + TextOr(info.description))
    ensures '|' !in r.description && ' ' !in r.description
    ensures r.title != "" ==> cfg.compareTitles && info.title == Some(r.title)
    ensures !r.checked && r.vis == NewCache(info.fileName) && r.duplicates == Null
  {
    var desc := TextOr(info.shortText) + TextOr(info.description);
    var d := EraseAll(desc, '|');
    d := EraseAll(d, ' ');
    NormalizedIsKey(desc);
    var title := if cfg.compareTitles && info.title.Some? then info.title.value else "";
    r := DupRecord(false, NewCache(info.fileName), info.fileName, ListTitle(info.listTitle), title, d, Null);
  }

  /** cDuplicateRecording(void): a group head with an empty member list. */
  function GroupHead(): (h: DupRecord)
    ensures h.duplicates == List([]) && h.description == "" && h.text == NoText
  {
    DupRecord(false, NewCache(""), "", NoText, "", "", List([]))
  }

  // ---- HasDescription ----

  /**
   * The recursive version of recording.c: a record has a description when its
   * key is non-empty or, for a group head, when its first member has one.
   */
  function HasDescription(r: DupRecord): bool
    decreases r
  {
    if r.description != "" then true
    else match r.duplicates
      case Null => false
      case List(items) => if items == [] then false else HasDescription(items[0])
  }

  /** For a record without a member list it is exactly "the key is non-empty" (the inline version). */
  lemma HasDescriptionLeaf(r: DupRecord)
    requires r.duplicates == Null
    ensures HasDescription(r) <==> r.description != ""
  {
  }

  /** A group head with an empty key answers for its first member. */
  lemma HasDescriptionHead(h: DupRecord, items: seq<DupRecord>)
    requires h.description == "" && h.duplicates == List(items) && items != []
    ensures HasDescription(h) == HasDescription(items[0])
  {
  }

  // ---- substring search ----

  /** `needle` occurs in `hay` at position `k`. */
  predicate OccursAt(needle: string, hay: string, k: int)
  {
    0 <= k <= |hay| - |needle| && hay[k..k + |needle|] == needle
  }

  /** `needle` occurs somewhere in `hay`. */
  ghost predicate Occurs(needle: string, hay: string)
  {
    exists k :: OccursAt(needle, hay, k)
  }

  /** `hay.find(needle) != npos`, searching from the front. */
  function Find(hay: string, needle: string): (found: bool)
    ensures found <==> Occurs(needle, hay)
    decreases |hay|
  {
    if |needle| > |hay| then false
    else if hay[..|needle|] == needle then
      assert OccursAt(needle, hay, 0);
      true
    else
      var rest := Find(hay[1..], needle);
      assert rest <==> Occurs(needle, hay) by {
        if rest {
          var k :| OccursAt(needle, hay[1..], k);
          assert hay[k + 1..k + 1 + |needle|] == hay[1..][k..k + |needle|];
          assert OccursAt(needle, hay, k + 1);
        }
        if Occurs(needle, hay) {
          var k :| OccursAt(needle, hay, k);
          assert k != 0;
          assert hay[1..][k - 1..k - 1 + |needle|] == hay[k..k + |needle|];
          assert OccursAt(needle, hay[1..], k - 1);
        }
      }
      rest
  }

  /**
   * The plugin's directional test: the shorter string is searched in the
   * longer one, and on equal length the second string is the one searched in.
   */
  function InLonger(x: string, y: string): (found: bool)
    ensures |x| > |y| ==> (found <==> Occurs(y, x))
    ensures |x| <= |y| ==> (found <==> Occurs(x, y))
  {
    if |x| > |y| then Find(x, y) else Find(y, x)
  }

  lemma EmptyOccurs(hay: string)
    ensures Occurs("", hay)
  {
    assert OccursAt("", hay, 0);
  }

  lemma SelfOccurs(s: string)
    ensures Occurs(s, s)
  {
    assert OccursAt(s, s, 0);
  }

  // ---- IsDuplicate ----

  /** Outcome of `a.IsDuplicate(b)`: the answer and both records with their caches as left by it. */
  datatype Match = Match(dup: bool, a: DupRecord, b: DupRecord)

  /** The visibility gate: hidden records are shown, or neither record reads hidden. */
  predicate VisibleEnough(a: DupRecord, b: DupRecord, cfg: Settings, markers: set<Path>)
  {
    cfg.showHidden || (ReadState(a.vis, markers) != Hidden && ReadState(b.vis, markers) != Hidden)
  }

  /**
   * `a.IsDuplicate(b)`.  Both need a description; with titles compared, the
   * shorter title must occur in the longer; the shorter key must occur in the
   * longer; and the visibility gate must pass.  Reading the visibility fills
   * the caches it reads (`a`'s, then `b`'s unless `a` reads hidden).
   */
  function IsDuplicate(a: DupRecord, b: DupRecord, cfg: Settings, markers: set<Path>): (m: Match)
    ensures m.a.vis == a.vis || m.a.vis == Resolve(a.vis, markers)
    ensures m.b.vis == b.vis || m.b.vis == Resolve(b.vis, markers)
    ensures m.a == a.(vis := m.a.vis) && m.b == b.(vis := m.b.vis)
  {
    if !HasDescription(a) || !HasDescription(b) then Match(false, a, b)
    else if cfg.compareTitles && !InLonger(a.title, b.title) then Match(false, a, b)
    else if !InLonger(a.description, b.description) then Match(false, a, b)
    else if cfg.showHidden then Match(true, a, b)
    else
      var a' := a.(vis := Resolve(a.vis, markers));
      if a'.vis.state == Hidden then Match(false, a', b)
      else
        var b' := b.(vis := Resolve(b.vis, markers));
        Match(b'.vis.state != Hidden, a', b')
  }

  /**
   * Which caches a question fills: none when hidden recordings are shown (the
   * gate is decided by the setting alone), and both, from the markers, when
   * the answer is yes while they are not shown.  When `b`'s cache is filled,
   * its read decides the answer: `b` is refused exactly when it reads hidden.
   */
  lemma IsDuplicateCaches(a: DupRecord, b: DupRecord, cfg: Settings, markers: set<Path>)
    ensures var m := IsDuplicate(a, b, cfg, markers);
      (cfg.showHidden ==> m.a == a && m.b == b) &&
      (m.dup && !cfg.showHidden ==> m.a.vis == Resolve(a.vis, markers) && m.b.vis == Resolve(b.vis, markers)) &&
      (m.b.vis != b.vis ==> !cfg.showHidden && (m.dup <==> ReadState(b.vis, markers) != Hidden))
  {
  }

  /**
   * What the answer of `IsDuplicate` means: false when either record lacks a
   * description; a match needs the shorter title (when titles are compared)
   * and the shorter key to occur in the longer one, and the visibility gate to
   * pass; and when all of that holds it is a match.
   */
  lemma IsDuplicateSpec(a: DupRecord, b: DupRecord, cfg: Settings, markers: set<Path>)
    ensures var m := IsDuplicate(a, b, cfg, markers);
      (!HasDescription(a) || !HasDescription(b) ==> !m.dup) &&
      (m.dup && cfg.compareTitles ==>
        if |a.title| > |b.title| then Occurs(b.title, a.title) else Occurs(a.title, b.title)) &&
      (m.dup ==>
        if |a.description| > |b.description| then Occurs(b.description, a.description)
        else Occurs(a.description, b.description)) &&
      (m.dup ==> VisibleEnough(a, b, cfg, markers))
    ensures (HasDescription(a) && HasDescription(b) && (cfg.compareTitles ==> InLonger(a.title, b.title)) &&
             InLonger(a.description, b.description) && VisibleEnough(a, b, cfg, markers)) ==>
      IsDuplicate(a, b, cfg, markers).dup
  {
  }

  /** An empty title always passes the title gate, whichever side it is on. */
  lemma EmptyTitlePasses(t: string)
    ensures InLonger("", t) && InLonger(t, "")
  {
    EmptyOccurs(t);
  }

  /** A record with a description that is not hidden (or hidden ones are shown) duplicates itself. */
  lemma IsDuplicateReflexive(a: DupRecord, cfg: Settings, markers: set<Path>)
    requires HasDescription(a)
    requires cfg.showHidden || ReadState(a.vis, markers) != Hidden
    ensures IsDuplicate(a, a, cfg, markers).dup
  {
    SelfOccurs(a.title);
    SelfOccurs(a.description);
  }

  /**
   * The cache fill does not change later answers: comparing records whose
   * caches were resolved gives the same answer as comparing the originals.
   */
  lemma IsDuplicateIgnoresResolve(a: DupRecord, b: DupRecord, cfg: Settings, markers: set<Path>)
    ensures IsDuplicate(a.(vis := Resolve(a.vis, markers)), b, cfg, markers).dup == IsDuplicate(a, b, cfg, markers).dup
    ensures IsDuplicate(a, b.(vis := Resolve(b.vis, markers)), cfg, markers).dup == IsDuplicate(a, b, cfg, markers).dup
  {
  }

  // ---- copies ----

  /** Every member list the copy constructor would drop (empty ones) is absent. */
  predicate NoEmptyLists(r: DupRecord)
    decreases r
  {
    match r.duplicates
    case Null => true
    case List(items) => items != [] && forall i :: 0 <= i < |items| ==> NoEmptyLists(items[i])
  }

  /** The copy constructor's result: a deep copy in which an empty member list becomes absent. */
  function Copied(r: DupRecord): DupRecord
    decreases r, 1
  {
    match r.duplicates
    case Null => r
    case List(items) => if items == [] then r.(duplicates := Null) else r.(duplicates := List(CopiedAll(items)))
  }

  function CopiedAll(items: seq<DupRecord>): (c: seq<DupRecord>)
    ensures |c| == |items|
    decreases items, 0
  {
    if items == [] then [] else [Copied(items[0])] + CopiedAll(items[1..])
  }

  lemma {:induction false} CopiedAllAt(items: seq<DupRecord>, i: nat)
    requires i < |items|
    ensures CopiedAll(items)[i] == Copied(items[i])
  {
    if i > 0 {
      CopiedAllAt(items[1..], i - 1);
    }
  }

  /** A copy has no empty member list, and copying changes nothing else than member lists. */
  lemma {:induction false} CopiedShape(r: DupRecord)
    ensures NoEmptyLists(Copied(r))
    ensures Copied(r) == r.(duplicates := Copied(r).duplicates)
    ensures HasDescription(Copied(r)) == HasDescription(r)
    decreases r
  {
    match r.duplicates
    case Null =>
    case List(items) =>
      if items != [] {
        var c := CopiedAll(items);
        forall i | 0 <= i < |c|
          ensures NoEmptyLists(c[i])
        {
          CopiedAllAt(items, i);
          CopiedShape(items[i]);
        }
        CopiedAllAt(items, 0);
        CopiedShape(items[0]);
      }
  }

  /** Copying a record that has no empty member list gives the same record. */
  lemma {:induction false} CopiedIdentity(r: DupRecord)
    requires NoEmptyLists(r)
    ensures Copied(r) == r
    decreases r
  {
    match r.duplicates
    case Null =>
    case List(items) =>
      var c := CopiedAll(items);
      forall i | 0 <= i < |items|
        ensures c[i] == items[i]
      {
        CopiedAllAt(items, i);
        CopiedIdentity(items[i]);
      }
      assert c == items;
  }

  /** Copying twice is copying once. */
  lemma CopiedIdempotent(r: DupRecord)
    ensures Copied(Copied(r)) == Copied(r)
  {
    CopiedShape(r);
    CopiedIdentity(Copied(r));
  }

  /**
   * cDuplicateRecording(const cDuplicateRecording &): copies every field and
   * each member one by one; an empty member list is not copied.
   */
  method Copy(r: DupRecord) returns (c: DupRecord)
    ensures c == Copied(r)
    decreases r
  {
    c := r;
    match r.duplicates
    case Null =>
    case List(items) =>
      if |items| > 0 {
        var copies: seq<DupRecord> := [];
        for i := 0 to |items|
          invariant copies == CopiedAll(items[..i])
        {
          var m := Copy(items[i]);
          CopiedAllSnoc(items[..i], items[i]);
          assert items[..i + 1] == items[..i] + [items[i]];
          copies := copies + [m];
        }
        assert items[..|items|] == items;
        c := r.(duplicates := List(copies));
      } else {
        c := r.(duplicates := Null);
      }
  }

  lemma {:induction false} CopiedAllSnoc(items: seq<DupRecord>, x: DupRecord)
    ensures CopiedAll(items + [x]) == CopiedAll(items) + [Copied(x)]
  {
    if items != [] {
      assert (items + [x])[1..] == items[1..] + [x];
      CopiedAllSnoc(items[1..], x);
    }
  }

  // ---- accessors of recording.h ----

  /** SetChecked(chkd = true). */
  function SetChecked(r: DupRecord, chkd: bool := true): (r': DupRecord)
    ensures r'.checked == chkd
  {
    r.(checked := chkd)
  }

  /** SetText(t). */
  function SetText(r: DupRecord, t: Text): (r': DupRecord)
    ensures r'.text == t
  {
    r.(text := t)
  }

  /**
   * Checked() and Text() read back the last value set, setting one field
   * leaves every other field alone, and the two setters do not interfere.
   */
  lemma AccessorsReadBack(r: DupRecord, b: bool, t: Text)
    ensures SetChecked(r).checked && SetChecked(r, b).checked == b && SetText(r, t).text == t
    ensures SetChecked(r, b).(checked := r.checked) == r && SetText(r, t).(text := r.text) == r
    ensures SetText(SetChecked(r, b), t) == SetChecked(SetText(r, t), b)
  {
  }
}
