/**
 The POSIX path operations the scripts use: `pathlib.Path(p).name`, `.stem`
 and `.suffix`, `os.path.dirname` and `os.path.join` of a directory and one
 of its entries.
 */
module Paths {
  import opened Text
  import Ordering

  predicate IsNamedPart(part: string) { part != "." }

  /** The parts `pathlib` keeps: runs between slashes, without empty and `.` parts. */
  function Parts(path: string): (parts: seq<string>)
    ensures forall w :: w in parts ==> IsToken(w, Slash) && w != "."
  {
    TokensAreTokens(path, Slash);
    Ordering.Filter(Tokens(path, Slash), IsNamedPart)
  }

  /** `Path(path).name`: the final part, or `""` for a path with none. */
  function Name(path: string): (name: string)
    ensures forall i :: 0 <= i < |name| ==> name[i] != '/'
  {
    var parts := Parts(path);
    if parts == [] then ""
    else
      assert parts[|parts| - 1] in parts;
      parts[|parts| - 1]
  }

  /** Index of the last `c` in `s` (Python's `s.rfind(c)`), or -1. */
  function LastIndex(s: string, c: char): (i: int)
    ensures -1 <= i < |s|
    ensures i >= 0 ==> s[i] == c
    ensures forall j :: i < j < |s| ==> s[j] != c
  {
    if s == [] then -1
    else if s[|s| - 1] == c then |s| - 1
    else LastIndex(s[..|s| - 1], c)
  }

  /** Index of the last `.` of a name, where its extension starts. */
  function LastDot(s: string): int { LastIndex(s, '.') }

  /**
   Whether the name has an extension: a last dot that is neither the first
   nor the last character (so `.bashrc` and `notes.` have none).
   */
  predicate HasSuffix(name: string) {
    0 < LastDot(name) < |name| - 1
  }

  /** `Path(path).suffix`: the extension with its dot, or `""`. */
  function Suffix(path: string): (suffix: string)
    ensures suffix == [] || (suffix[0] == '.' && forall j :: 0 < j < |suffix| ==> suffix[j] != '.')
  {
    var name := Name(path);
    if HasSuffix(name) then name[LastDot(name)..] else ""
  }

  /** `Path(path).stem`: the name without its extension. */
  function Stem(path: string): (stem: string)
  {
    var name := Name(path);
    if HasSuffix(name) then name[..LastDot(name)] else name
  }

  /** The stem and the suffix put back together are the name. */
  lemma StemAndSuffix(path: string)
    ensures Stem(path) + Suffix(path) == Name(path)
    ensures |Suffix(path)| < |Name(path)| || Name(path) == []
  {
    var name := Name(path);
    if HasSuffix(name) {
      assert name[..LastDot(name)] + name[LastDot(name)..] == name;
    }
  }

  predicate AllSlashes(s: string) {
    forall i :: 0 <= i < |s| ==> s[i] == '/'
  }

  /** Python's `s.rstrip('/')`. */
  function StripSlashesEnd(s: string): (r: string)
    ensures |r| <= |s| && r == s[..|r|]
    ensures r == [] || r[|r| - 1] != '/'
    ensures forall k :: |r| <= k < |s| ==> s[k] == '/'
  {
    if s == [] || s[|s| - 1] != '/' then s else StripSlashesEnd(s[..|s| - 1])
  }

  /**
   `os.path.dirname(path)`: everything up to the last slash, without
   trailing slashes unless it is made of slashes only.
   */
  function DirName(path: string): (dir: string)
    ensures dir == [] <==> '/' !in path
    ensures |dir| <= |path| && dir == path[..|dir|]
    ensures '/' in path ==>
      && |dir| <= LastIndex(path, '/') + 1
      && (forall k :: |dir| <= k <= LastIndex(path, '/') ==> path[k] == '/')
    ensures !AllSlashes(dir) ==> dir[|dir| - 1] != '/'
    ensures dir != [] && AllSlashes(dir) ==> |dir| == LastIndex(path, '/') + 1
  {
    var head := path[..LastIndex(path, '/') + 1];
    if head != [] && !AllSlashes(head) then
      var r := StripSlashesEnd(head);
      assert r != [] by {
        if r == [] {
          StripSlashesEndAll(head);
        }
      }
      r
    else
      assert '/' in path ==> head != [] by {
        if '/' in path {
          var k :| 0 <= k < |path| && path[k] == '/';
          assert k <= LastIndex(path, '/');
        }
      }
      head
  }

  /**
   The folder part of an entry joined onto a folder is that folder, once
   its trailing slashes are dropped; an entry joined onto no folder has none.
   */
  lemma DirNameOfJoinPath(folder: string, entry: string)
    requires IsToken(entry, Slash)
    ensures folder == [] ==> DirName(JoinPath(folder, entry)) == []
    ensures folder != [] && !AllSlashes(folder) ==> DirName(JoinPath(folder, entry)) == StripSlashesEnd(folder)
    ensures folder != [] && folder[|folder| - 1] != '/' ==> DirName(JoinPath(folder, entry)) == folder
  {
    var p := DirPrefix(folder);
    var path := p + entry;
    if folder == [] {
      assert path == entry;
    } else {
      LastSlashOfJoin(p, entry);
      assert path[..LastIndex(path, '/') + 1] == p;
      if !AllSlashes(folder) {
        var k :| 0 <= k < |folder| && folder[k] != '/';
        assert p[k] == folder[k];
        assert !AllSlashes(p);
        assert DirName(path) == StripSlashesEnd(p);
        if p != folder {
          assert p[..|p| - 1] == folder;
        }
      }
    }
  }

  /** The last slash of a slash-terminated prefix followed by a slash-free entry ends the prefix. */
  lemma LastSlashOfJoin(p: string, entry: string)
    requires p != [] && p[|p| - 1] == '/'
    requires IsToken(entry, Slash)
    ensures LastIndex(p + entry, '/') == |p| - 1
  {
    assert (p + entry)[|p| - 1] == '/';
  }

  lemma {:induction false} StripSlashesEndAll(s: string)
    requires StripSlashesEnd(s) == []
    ensures AllSlashes(s)
    decreases |s|
  {
    if s != [] {
      StripSlashesEndAll(s[..|s| - 1]);
      forall i | 0 <= i < |s| ensures s[i] == '/' {
        if i < |s| - 1 {
          assert s[i] == s[..|s| - 1][i];
        }
      }
    }
  }

  /** What `os.path.join(folder, entry)` puts in front of an entry name. */
  function DirPrefix(folder: string): (p: string)
    ensures p == [] || p[|p| - 1] == '/'
  {
    if folder == [] || folder[|folder| - 1] == '/' then folder else folder + "/"
  }

  /**
   `os.path.join(folder, entry)` for an entry of a directory listing (entry
   names never contain `/`, so the join only puts the folder in front).
   */
  function JoinPath(folder: string, entry: string): (path: string)
  {
    DirPrefix(folder) + entry
  }

  /** A directory entry joined onto any folder keeps the entry as its name. */
  lemma NameOfJoinPath(folder: string, entry: string)
    requires IsToken(entry, Slash) && entry != "."
    ensures Name(JoinPath(folder, entry)) == entry
    ensures Stem(JoinPath(folder, entry)) == Stem(entry)
  {
    var d := DirPrefix(folder);
    TokensAfterSep(d, entry, Slash);
    TokensOfSingleToken(entry, Slash);
    FilterAppendKept(Tokens(d, Slash), entry);
    FilterAppendKept([], entry);
  }

  lemma FilterAppendKept(s: seq<string>, last: string)
    requires IsNamedPart(last)
    ensures Ordering.Filter(s + [last], IsNamedPart) == Ordering.Filter(s, IsNamedPart) + [last]
  {
    Ordering.FilterAppend(s, [last], IsNamedPart);
  }
}
