/**
 * The file selection of `RenderDataLoader.find_latest_log`: among the
 * directory entries whose name starts with the configured prefix, the one
 * modified last, as a path under the working directory. The directory
 * listing and the modification times are given as a list of entries.
 */
module Loader {
  import opened Wrappers
  import opened Table

  /** A directory entry with its modification time. */
  datatype Entry = Entry(name: string, mtime: int)

  /** Python's `str.startswith`. */
  predicate StartsWith(s: string, prefix: string)
  {
    |prefix| <= |s| && s[..|prefix|] == prefix
  }

  /** POSIX `os.path.join` of two components: a relative name goes under the root, an absolute one replaces it. */
  function Join(root: string, name: string): (p: string)
    ensures |name| <= |p| && p[|p| - |name|..] == name
    ensures |name| > 0 && name[0] == '/' ==> p == name
    ensures !(|name| > 0 && name[0] == '/') ==> |root| <= |p| <= |root| + 1 + |name| && p[..|root|] == root
    ensures !(|name| > 0 && name[0] == '/') && root != [] && root[|root| - 1] != '/' ==>
      |p| == |root| + 1 + |name| && p[|root|] == '/'
    ensures !(|name| > 0 && name[0] == '/') && (root == [] || root[|root| - 1] == '/') ==>
      |p| == |root| + |name|
  {
    if |name| > 0 && name[0] == '/' then name
    else if root == [] || root[|root| - 1] == '/' then root + name
    else root + "/" + name
  }

  /** The entries whose name starts with the prefix, in listing order. */
  function Matching(entries: seq<Entry>, prefix: string): seq<Entry>
  {
    Filter((e: Entry) => StartsWith(e.name, prefix), entries)
  }

  /**
   * Python's `max` with a key: scanning left to right it replaces its
   * candidate only by a strictly newer entry, so of equally new entries
   * the first one wins.
   */
  function LatestIndex(c: seq<Entry>): (k: nat)
    requires |c| > 0
    ensures k < |c|
    ensures forall j :: 0 <= j < |c| ==> c[j].mtime <= c[k].mtime
    ensures forall j :: 0 <= j < k ==> c[j].mtime < c[k].mtime
    decreases |c|
  {
    if |c| == 1 then 0
    else
      var k := LatestIndex(c[..|c| - 1]);
      if c[|c| - 1].mtime > c[k].mtime then |c| - 1 else k
  }

  /** The path of the newest matching entry; None where `max` of no candidates raises. */
  function FindLatestLog(root: string, prefix: string, entries: seq<Entry>): (r: Option<string>)
    ensures r.None? <==> forall i :: 0 <= i < |entries| ==> !StartsWith(entries[i].name, prefix)
  {
    FilterEmpty((e: Entry) => StartsWith(e.name, prefix), entries);
    var candidates := Matching(entries, prefix);
    if candidates == [] then None
    else Some(Join(root, candidates[LatestIndex(candidates)].name))
  }

  /** Entry `i` matches the prefix and no matching entry is newer. */
  predicate NewestMatch(entries: seq<Entry>, prefix: string, i: int)
  {
    0 <= i < |entries| && StartsWith(entries[i].name, prefix) &&
    forall j :: 0 <= j < |entries| && StartsWith(entries[j].name, prefix) ==> entries[j].mtime <= entries[i].mtime
  }

  /** A found path is that of a matching entry at least as new as every other matching entry. */
  lemma FindLatestLogIsNewest(root: string, prefix: string, entries: seq<Entry>)
    requires FindLatestLog(root, prefix, entries).Some?
    ensures exists i :: NewestMatch(entries, prefix, i) && FindLatestLog(root, prefix, entries).value == Join(root, entries[i].name)
  {
    var candidates := Matching(entries, prefix);
    var k := LatestIndex(candidates);
    var e := candidates[k];
    assert e in candidates;
    var i :| 0 <= i < |entries| && entries[i] == e;
    forall j | 0 <= j < |entries| && StartsWith(entries[j].name, prefix)
      ensures entries[j].mtime <= e.mtime
    {
      assert entries[j] in candidates;
    }
    assert NewestMatch(entries, prefix, i);
  }
}
