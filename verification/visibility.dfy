/**
 * The per-recording hidden/visible marker of the duplicates plugin.
 *
 * A recording is hidden when a marker file `duplicates.hidden` exists in its
 * directory.  A `cVisibility` caches what it last learned about that file in a
 * tri-state value; `Cache` below is the value of one such object (the plugin
 * copies these objects freely), and `Visibility` is the object itself.
 * The file system is a set of marker paths.
 */
module Visibility {

  type Path = string

  /** The three states of the cache (visibility.h:16). */
  datatype VisState = Unknown | Visible | Hidden

  /** Name of the marker file inside a recording's directory. */
  const MarkerName: string := "duplicates.hidden"

  /** Path of the marker for the recording stored in directory `dir`. */
  function MarkerPath(dir: Path): (p: Path)
    ensures |p| == |dir| + 1 + |MarkerName|
    ensures p[..|dir|] == dir && p[|dir|] == '/' && p[|dir| + 1..] == MarkerName
  {
    dir + "/" + MarkerName
  }

  /** The value of a cVisibility: the marker it looks at and its cached state. */
  datatype Cache = Cache(markerPath: Path, state: VisState)

  /** A fresh cache for the recording in `dir`: nothing read yet. */
  function NewCache(dir: Path): (c: Cache)
    ensures c.markerPath == MarkerPath(dir) && c.state == Unknown
  {
    Cache(MarkerPath(dir), Unknown)
  }

  /** The state for a visibility value from the marker alone. */
  function MarkerState(c: Cache, markers: set<Path>): (v: VisState)
    ensures v == Hidden <==> c.markerPath in markers
    ensures v != Unknown
  {
    if c.markerPath in markers then Hidden else Visible
  }

  /** What `Read` answers: the cache when it is known, otherwise the marker. */
  function ReadState(c: Cache, markers: set<Path>): (v: VisState)
    ensures v != Unknown
    ensures c.state != Unknown ==> v == c.state
    ensures c.state == Unknown ==> (v == Hidden <==> c.markerPath in markers)
  {
    if c.state == Unknown then MarkerState(c, markers) else c.state
  }

  /** The cache after a `Read`: the answer is remembered. */
  function Resolve(c: Cache, markers: set<Path>): (r: Cache)
    ensures r.markerPath == c.markerPath
    ensures r.state != Unknown && r.state == ReadState(c, markers)
    ensures c.state != Unknown ==> r == c
  {
    c.(state := ReadState(c, markers))
  }

  /** A cache is sound when it is unknown or agrees with the marker. */
  predicate Sound(c: Cache, markers: set<Path>)
  {
    c.state == Unknown || c.state == MarkerState(c, markers)
  }

  /** Resolving never changes what a later `Read` would answer. */
  lemma ResolveStable(c: Cache, markers: set<Path>)
    ensures ReadState(Resolve(c, markers), markers) == ReadState(c, markers)
    ensures Resolve(Resolve(c, markers), markers) == Resolve(c, markers)
  {
  }

  /** The result of `Write`: success, the cache afterwards, the markers afterwards. */
  datatype WriteResult = WriteResult(ok: bool, cache: Cache, markers: set<Path>)

  /**
   * `Write(visible)`: removing the marker (to show) fails when it does not
   * exist or the file system refuses; creating it (to hide) fails only when the
   * file system refuses.  `ioOk` stands for everything else the file system
   * may decide (permissions, a missing directory).
   */
  function WriteOutcome(c: Cache, visible: bool, markers: set<Path>, ioOk: bool): (r: WriteResult)
    ensures r.ok <==> ioOk && (visible ==> c.markerPath in markers)
    ensures r.ok && visible ==> r.cache.state == Visible && r.markers == markers - {c.markerPath}
    ensures r.ok && !visible ==> r.cache.state == Hidden && r.markers == markers + {c.markerPath}
    ensures !r.ok ==> r.cache == c && r.markers == markers
    ensures r.cache.markerPath == c.markerPath
  {
    if visible then
      if ioOk && c.markerPath in markers then
        WriteResult(true, c.(state := Visible), markers - {c.markerPath})
      else
        WriteResult(false, c, markers)
    else
      if ioOk then
        WriteResult(true, c.(state := Hidden), markers + {c.markerPath})
      else
        WriteResult(false, c, markers)
  }

  /**
   * After any `Write`, a successful one or not, a sound cache stays sound: the
   * marker remains the single source of truth.  In particular a later `Read`
   * of the same object and a fresh read of the marker agree.
   */
  lemma WriteKeepsSound(c: Cache, visible: bool, markers: set<Path>, ioOk: bool)
    requires Sound(c, markers)
    ensures var r := WriteOutcome(c, visible, markers, ioOk);
      Sound(r.cache, r.markers) &&
      ReadState(r.cache, r.markers) == MarkerState(c, r.markers)
  {
  }

  /** Round trip: a successful write is what the next `Read` returns; a failed one changes nothing. */
  lemma WriteThenRead(c: Cache, visible: bool, markers: set<Path>, ioOk: bool)
    ensures var r := WriteOutcome(c, visible, markers, ioOk);
      (r.ok ==> ReadState(r.cache, r.markers) == (if visible then Visible else Hidden)) &&
      (!r.ok ==> ReadState(r.cache, r.markers) == ReadState(c, markers))
  {
  }

  /** The library's recordings directory tree, as far as markers go. */
  class FileSystem {
    var markers: set<Path>

    constructor (markers: set<Path>)
      ensures this.markers == markers
    {
      this.markers := markers;
    }
  }

  /** A cVisibility object. */
  class Visibility {
    var hiddenFileName: Path
    var visibility: VisState

    /** The object's value, as copies of it see it. */
    function Value(): (c: Cache)
      reads this
      ensures c.markerPath == hiddenFileName && c.state == visibility
    {
      Cache(hiddenFileName, visibility)
    }

    /** A new object for the recording in `fileName` knows nothing yet. */
    constructor (fileName: Path)
      ensures Value() == NewCache(fileName)
    {
      hiddenFileName := MarkerPath(fileName);
      visibility := Unknown;
    }

    /** The copy constructor: same marker, same cached state. */
    constructor Copy(other: Visibility)
      ensures Value() == old(other.Value())
    {
      hiddenFileName := other.hiddenFileName;
      visibility := other.visibility;
    }

    /** The cached state as it is, possibly unknown; the file system is not consulted. */
    method Get() returns (v: VisState)
      ensures v == visibility
    {
      v := visibility;
    }

    /** Only the cache changes; the marker is left as it is. */
    method Set(visible: bool)
      modifies this`visibility
      ensures visibility == (if visible then Visible else Hidden)
    {
      visibility := if visible then Visible else Hidden;
    }

    /**
     * Resolves an unknown cache once from the marker and answers the cache;
     * a known cache is answered without looking at the file system.
     */
    method Read(fs: FileSystem) returns (v: VisState)
      modifies this`visibility
      ensures v != Unknown
      ensures old(visibility) != Unknown ==> v == old(visibility)
      ensures old(visibility) == Unknown ==> (v == Hidden <==> hiddenFileName in fs.markers)
      ensures Value() == Resolve(old(Value()), fs.markers) && v == visibility
    {
      if visibility == Unknown {
        visibility := if hiddenFileName in fs.markers then Hidden else Visible;
      }
      v := visibility;
    }

    /**
     * `Write(true)` removes the marker, `Write(false)` creates it; on success
     * the cache follows, on failure neither the cache nor the markers change.
     */
    method Write(visible: bool, fs: FileSystem, ioOk: bool) returns (ok: bool)
      modifies this`visibility, fs
      ensures var r := WriteOutcome(old(Value()), visible, old(fs.markers), ioOk);
        ok == r.ok && Value() == r.cache && fs.markers == r.markers
      ensures ok <==> ioOk && (visible ==> hiddenFileName in old(fs.markers))
    {
      if visible {
        if ioOk && hiddenFileName in fs.markers {
          fs.markers := fs.markers - {hiddenFileName};
          visibility := Visible;
          return true;
        }
      } else {
        if ioOk {
          fs.markers := fs.markers + {hiddenFileName};
          visibility := Hidden;
          return true;
        }
      }
      return false;
    }
  }
}
