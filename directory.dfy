/**
 * An abstract filesystem: each directory path maps to the regular files in it,
 * each file name to its content. Paths are opaque strings; `folderPath + "/" + name`
 * in the application is the pair (folderPath, name) here.
 *
 * `QDir(path).entryList(QDir::Files)` lists the regular files of a directory that
 * are not hidden (on Unix, whose name starts with '.'), sorted by name; a
 * directory that does not exist lists as empty.
 */
module Directory {

  type Dir = map<string, string>

  /** The one filesystem shared by the workers, the monitor and the window. */
  class FileSystem {
    var dirs: map<string, Dir>

    constructor (dirs: map<string, Dir>)
      ensures this.dirs == dirs
    {
      this.dirs := dirs;
    }
  }

  predicate Hidden(name: string) {
    0 < |name| && name[0] == '.'
  }

  function VisibleNames(d: Dir): set<string> {
    set x | x in d && !Hidden(x)
  }

  /** Name order: lexicographic on character codes. */
  predicate NameLe(a: string, b: string)
    decreases |a|
  {
    if a == [] then true
    else if b == [] then false
    else if a[0] != b[0] then a[0] < b[0]
    else NameLe(a[1..], b[1..])
  }

  lemma {:induction false} NameLeTotal(a: string, b: string)
    ensures NameLe(a, b) || NameLe(b, a)
    decreases |a|
  {
    if a != [] && b != [] && a[0] == b[0] {
      NameLeTotal(a[1..], b[1..]);
    }
  }

  lemma {:induction false} NameLeAntisymmetric(a: string, b: string)
    requires NameLe(a, b) && NameLe(b, a)
    ensures a == b
    decreases |a|
  {
    if a != [] {
      NameLeAntisymmetric(a[1..], b[1..]);
      assert a == [a[0]] + a[1..] && b == [b[0]] + b[1..];
    }
  }

  lemma {:induction false} NameLeTransitive(a: string, b: string, c: string)
    requires NameLe(a, b) && NameLe(b, c)
    ensures NameLe(a, c)
    decreases |a|
  {
    if a != [] && a[0] == b[0] && b[0] == c[0] {
      NameLeTransitive(a[1..], b[1..], c[1..]);
    }
  }

  /** A common prefix does not change the order. */
  lemma {:induction false} NameLeCommonPrefix(c: string, x: string, y: string)
    requires NameLe(x, y)
    ensures NameLe(c + x, c + y)
    decreases |c|
  {
    if c == [] {
      assert c + x == x && c + y == y;
    } else {
      NameLeCommonPrefix(c[1..], x, y);
      assert (c + x)[1..] == c[1..] + x && (c + y)[1..] == c[1..] + y;
    }
  }

  predicate IsLeast(m: string, s: set<string>) {
    m in s && forall x :: x in s ==> NameLe(m, x)
  }

  lemma {:induction false} LeastExists(s: set<string>)
    requires s != {}
    ensures exists m :: IsLeast(m, s)
    decreases |s|
  {
    var y :| y in s;
    NameLeTotal(y, y);
    if s == {y} {
      assert IsLeast(y, s);
    } else {
      LeastExists(s - {y});
      var m :| IsLeast(m, s - {y});
      NameLeTotal(m, y);
      if NameLe(m, y) {
        assert IsLeast(m, s);
      } else {
        forall x | x in s
          ensures NameLe(y, x)
        {
          if x != y {
            NameLeTransitive(y, m, x);
          }
        }
        assert IsLeast(y, s);
      }
    }
  }

  lemma LeastUnique(s: set<string>)
    ensures forall m, m' :: IsLeast(m, s) && IsLeast(m', s) ==> m == m'
  {
    forall m, m' | IsLeast(m, s) && IsLeast(m', s)
      ensures m == m'
    {
      NameLeAntisymmetric(m, m');
    }
  }

  function LeastName(s: set<string>): (m: string)
    requires s != {}
    ensures IsLeast(m, s)
  {
    LeastExists(s);
    LeastUnique(s);
    var m :| IsLeast(m, s); m
  }

  predicate StrictlySorted(r: seq<string>) {
    forall i, j :: 0 <= i < j < |r| ==> NameLe(r[i], r[j]) && r[i] != r[j]
  }

  lemma SameMembersBothEmpty(r1: seq<string>, r2: seq<string>)
    requires forall x :: x in r1 <==> x in r2
    ensures r1 == [] <==> r2 == []
  {
    if r1 != [] {
      assert r1[0] in r2;
    }
    if r2 != [] {
      assert r2[0] in r1;
    }
  }

  /** A set has only one strictly sorted arrangement. */
  lemma {:induction false} SortedUnique(r1: seq<string>, r2: seq<string>)
    requires StrictlySorted(r1) && StrictlySorted(r2)
    requires forall x :: x in r1 <==> x in r2
    ensures r1 == r2
    decreases |r1|
  {
    SameMembersBothEmpty(r1, r2);
    if r1 != [] {
      assert r1[0] in r2 && r2[0] in r1;
      var i :| 0 <= i < |r1| && r1[i] == r2[0];
      var j :| 0 <= j < |r2| && r2[j] == r1[0];
      if i != 0 && j != 0 {
        NameLeAntisymmetric(r1[0], r2[0]);
      }
      assert r1[0] == r2[0];
      forall x
        ensures x in r1[1..] <==> x in r2[1..]
      {
        if x in r1[1..] {
          var a :| 1 <= a < |r1| && r1[a] == x;
          assert x in r1 && x in r2;
          var k :| 0 <= k < |r2| && r2[k] == x;
          assert k != 0;
          assert r2[1..][k - 1] == x;
        }
        if x in r2[1..] {
          var b :| 1 <= b < |r2| && r2[b] == x;
          assert x in r2 && x in r1;
          var k :| 0 <= k < |r1| && r1[k] == x;
          assert k != 0;
          assert r1[1..][k - 1] == x;
        }
      }
      SortedUnique(r1[1..], r2[1..]);
      assert r1 == [r1[0]] + r1[1..] && r2 == [r2[0]] + r2[1..];
    }
  }

  /** The names of s in ascending order, each once. */
  function SortedNames(s: set<string>): (r: seq<string>)
    ensures |r| == |s|
    ensures forall x :: x in r <==> x in s
    ensures StrictlySorted(r)
    decreases |s|
  {
    if s == {} then []
    else
      var m := LeastName(s);
      [m] + SortedNames(s - {m})
  }

  /** `QDir(p).entryList(QDir::Files)`. */
  function Listing(dirs: map<string, Dir>, p: string): (r: seq<string>)
    ensures p !in dirs ==> r == []
    ensures p in dirs ==> forall x :: x in r <==> x in dirs[p] && !Hidden(x)
    ensures p in dirs ==> |r| == |VisibleNames(dirs[p])|
    ensures StrictlySorted(r)
  {
    if p in dirs then SortedNames(VisibleNames(dirs[p])) else []
  }

  /** Writing `content` to p/name (open in WriteOnly mode truncates an existing file). */
  function WriteFile(dirs: map<string, Dir>, p: string, name: string, content: string): (r: map<string, Dir>)
    requires p in dirs
    ensures r.Keys == dirs.Keys
    ensures r[p].Keys == dirs[p].Keys + {name} && r[p][name] == content
    ensures forall x :: x in dirs[p] && x != name ==> r[p][x] == dirs[p][x]
    ensures forall q :: q in dirs && q != p ==> r[q] == dirs[q]
  {
    dirs[p := dirs[p][name := content]]
  }

  /** Removing p/name when it exists; nothing happens otherwise. */
  function RemoveFile(dirs: map<string, Dir>, p: string, name: string): (r: map<string, Dir>)
    ensures r.Keys == dirs.Keys
    ensures p in dirs ==> r[p].Keys == dirs[p].Keys - {name}
    ensures p in dirs ==> forall x :: x in r[p] ==> r[p][x] == dirs[p][x]
    ensures forall q :: q in dirs && q != p ==> r[q] == dirs[q]
    ensures (p !in dirs || name !in dirs[p]) ==> r == dirs
  {
    if p in dirs && name in dirs[p] then dirs[p := dirs[p] - {name}] else dirs
  }

  /** Removing one more name from what is left of d0 after removing a set of names. */
  lemma RemoveFromRemainder(dirs: map<string, Dir>, p: string, d0: Dir, removed: set<string>, name: string)
    requires p in dirs && dirs[p] == d0 - removed
    ensures RemoveFile(dirs, p, name) == dirs[p := d0 - (removed + {name})]
  {
    var after := d0 - (removed + {name});
    assert after == dirs[p] - {name};
    if name !in dirs[p] {
      assert after == dirs[p];
    }
  }

  /** `QDir().mkpath(p)`: p exists afterwards, and an existing p keeps its files. */
  function MakePath(dirs: map<string, Dir>, p: string): (r: map<string, Dir>)
    ensures r.Keys == dirs.Keys + {p}
    ensures r[p] == if p in dirs then dirs[p] else map[]
    ensures forall q :: q in dirs && q != p ==> r[q] == dirs[q]
  {
    if p in dirs then dirs else dirs[p := map[]]
  }
}
