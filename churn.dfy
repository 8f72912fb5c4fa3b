/**
 * Creator and deleter working on one folder. Their counters are independent
 * and agree only because both start at 0 and name files with FileName.
 * After k successful creates and then j deletes, the folder holds exactly
 * the files numbered j to k - 1, each with its original content; deletes
 * past k find nothing and change nothing.
 */
module Churn {
  import opened FileNames
  import opened Directory
  import opened Creator
  import opened Deleter

  /** The names FileName(i) for j <= i < k. */
  function Range(j: nat, k: nat): set<string> {
    set i: nat | j <= i < k :: FileName(i)
  }

  /** An empty folder after k successful creates. */
  function Created(k: nat): Dir {
    if k == 0 then map[] else Created(k - 1)[FileName(k - 1) := FileContent(k - 1)]
  }

  /** ... and then j deletes. */
  function Survivors(k: nat, j: nat): Dir {
    Created(k) - Range(0, j)
  }

  lemma RangeGrow(j: nat, k: nat)
    requires j <= k
    ensures Range(j, k + 1) == Range(j, k) + {FileName(k)}
  {
    assert FileName(k) in Range(j, k + 1);
  }

  /** k creates leave the files 0 to k - 1 and no others. */
  lemma {:induction false} CreatedKeys(k: nat)
    ensures Created(k).Keys == Range(0, k)
  {
    if k > 0 {
      CreatedKeys(k - 1);
      RangeGrow(0, k - 1);
    }
  }

  /** Each of them holds its own content: no create clobbers another create's file. */
  lemma {:induction false} CreatedContent(k: nat, i: nat)
    requires i < k
    ensures FileName(i) in Created(k) && Created(k)[FileName(i)] == FileContent(i)
  {
    var prev, last := Created(k - 1), FileName(k - 1);
    assert Created(k) == prev[last := FileContent(k - 1)];
    if i < k - 1 {
      CreatedContent(k - 1, i);
      FileNameInjective(i, k - 1);
      assert FileName(i) != last;
    }
  }

  /** The names 0 to k - 1 without the names 0 to j - 1 are the names j to k - 1. */
  lemma RangeDifference(j: nat, k: nat)
    ensures Range(0, k) - Range(0, j) == Range(j, k)
  {
    forall x | x in Range(j, k)
      ensures x !in Range(0, j)
    {
      var i: nat :| j <= i < k && x == FileName(i);
      if x in Range(0, j) {
        var i': nat :| i' < j && x == FileName(i');
        FileNameInjective(i, i');
      }
    }
  }

  /** After k creates and j deletes the folder holds exactly the files j to k - 1, unaltered. */
  lemma ChurnContents(k: nat, j: nat)
    ensures Survivors(k, j).Keys == Range(j, k)
    ensures forall i: nat :: j <= i < k ==> Survivors(k, j)[FileName(i)] == FileContent(i)
  {
    CreatedKeys(k);
    forall i: nat | i < k
      ensures Created(k)[FileName(i)] == FileContent(i)
    {
      CreatedContent(k, i);
    }
    RangeDifference(j, k);
  }

  /** Deletes beyond the last create remove nothing. */
  lemma ExtraDeletesAreNoOps(k: nat, j: nat)
    requires k <= j
    ensures Survivors(k, j) == map[]
  {
    ChurnContents(k, j);
  }

  /** One more successful create on a folder holding Created(n). */
  lemma CreateStep(p: string, n: nat)
    ensures WriteFile(map[p := Created(n)], p, FileName(n), FileContent(n)) == map[p := Created(n + 1)]
  {
  }

  /** One more delete on a folder holding Created(k) without the names 0 to n - 1. */
  lemma DeleteStep(p: string, k: nat, n: nat)
    ensures RemoveFile(map[p := Created(k) - Range(0, n)], p, FileName(n)) == map[p := Created(k) - Range(0, n + 1)]
  {
    RemoveFromRemainder(map[p := Created(k) - Range(0, n)], p, Created(k), Range(0, n), FileName(n));
    RangeGrow(0, n);
  }

  /**
   * k ticks of a fresh creator, every open succeeding, then j ticks of a fresh
   * deleter, both on an empty folder p. Returns the folder and both counters.
   */
  method CreateThenDelete(p: string, k: nat, j: nat) returns (dir: Dir, created: nat, deleted: nat)
    ensures dir == Survivors(k, j)
    ensures dir.Keys == Range(j, k)
    ensures forall i: nat :: j <= i < k ==> dir[FileName(i)] == FileContent(i)
    ensures created == k && deleted == j
  {
    var fs := new FileSystem(map[p := map[]]);
    var creator := new FileCreator(p);
    var deleter := new FileDeleter(p);
    for n := 0 to k
      invariant creator.fileCounter == n && creator.folderPath == p
      invariant deleter.nextToDelete == 0 && deleter.folderPath == p
      invariant fs.dirs == map[p := Created(n)]
    {
      CreateStep(p, n);
      creator.CreateFile(fs, true);
    }
    assert Created(k) - Range(0, 0) == Created(k);
    for n := 0 to j
      invariant deleter.nextToDelete == n && deleter.folderPath == p
      invariant creator.fileCounter == k
      invariant fs.dirs == map[p := Created(k) - Range(0, n)]
    {
      DeleteStep(p, k, n);
      deleter.DeleteOldestFile(fs);
    }
    dir := fs.dirs[p];
    created := creator.fileCounter;
    deleted := deleter.nextToDelete;
    ChurnContents(k, j);
  }

  /** After `updateFolderPath(q)` the next create writes under q; the old folder p is left alone. */
  method RetargetThenCreate(c: FileCreator, fs: FileSystem, p: string, q: string)
    requires q in fs.dirs && p != q
    modifies c, fs
    ensures c.folderPath == q && c.fileCounter == old(c.fileCounter) + 1
    ensures fs.dirs == WriteFile(old(fs.dirs), q, FileName(old(c.fileCounter)), FileContent(old(c.fileCounter)))
    ensures p in old(fs.dirs) ==> p in fs.dirs && fs.dirs[p] == old(fs.dirs)[p]
  {
    c.UpdateFolderPath(q);
    c.CreateFile(fs, true);
  }

  // How the monitor lists the files the creator made.

  /** A higher leading digit outweighs everything after it. */
  lemma {:induction false} LeadingDigitDominates(s0: nat, t0: nat, p: nat, rs: nat, rt: nat)
    requires t0 < s0 && rt < p
    ensures t0 * p + rt < s0 * p + rs
    decreases s0
  {
    assert s0 * p == (s0 - 1) * p + p;
    if t0 < s0 - 1 {
      LeadingDigitDominates(s0 - 1, t0, p, rs, rt);
    }
  }

  /** Equal-length digit strings compare by name as their values compare, whatever follows them. */
  lemma {:induction false} DigitsOrder(s: string, t: string, u: string, v: string)
    requires AllDigits(s) && AllDigits(t) && |s| == |t|
    requires DigitsValue(s) < DigitsValue(t)
    ensures NameLe(s + u, t + v)
    decreases |s|
  {
    if s == [] {
      assert false;
    }
    var s0, t0 := s[0] as int - '0' as int, t[0] as int - '0' as int;
    assert (s + u)[0] == s[0] && (t + v)[0] == t[0];
    if s0 == t0 {
      DigitsValueFront(s);
      DigitsValueFront(t);
      DigitsOrder(s[1..], t[1..], u, v);
      assert (s + u)[1..] == s[1..] + u && (t + v)[1..] == t[1..] + v;
    } else if s0 > t0 {
      DigitsValueFront(s);
      DigitsValueFront(t);
      DigitsValueBound(t[1..]);
      LeadingDigitDominates(s0, t0, Pow10(|s| - 1), DigitsValue(s[1..]), DigitsValue(t[1..]));
      assert false;
    }
  }

  /** Below 10000 the names sort in counter order. */
  lemma FileNameOrder(a: nat, b: nat)
    requires a < b < 10000
    ensures NameLe(FileName(a), FileName(b)) && FileName(a) != FileName(b)
  {
    PaddedValue(a);
    PaddedValue(b);
    DigitsOrder(Padded(a), Padded(b), ".txt", ".txt");
    NameLeCommonPrefix("file_", Padded(a) + ".txt", Padded(b) + ".txt");
    assert FileName(a) == "file_" + (Padded(a) + ".txt");
    assert FileName(b) == "file_" + (Padded(b) + ".txt");
    FileNameInjective(a, b);
  }

  /** From 10000 on they do not: file_10000.txt sorts before file_1001.txt. */
  lemma FileNameOrderBreaksAt10000()
    ensures NameLe(FileName(10000), FileName(1001)) && FileName(10000) != FileName(1001)
  {
    assert Decimal(10) == "10" by { assert Decimal(1) == "1"; }
    assert Decimal(1000) == "1000" by { assert Decimal(100) == "100"; }
    assert Decimal(1001) == "1001" by { assert Decimal(100) == "100"; }
    assert Padded(10000) == "10000" by { assert Decimal(10000) == Decimal(1000) + "0"; }
    assert Padded(1001) == "1001";
    assert FileName(10000) == "file_100" + "00.txt";
    assert FileName(1001) == "file_100" + "1.txt";
    assert NameLe("00.txt", "1.txt");
    NameLeCommonPrefix("file_100", "00.txt", "1.txt");
    FileNameInjective(10000, 1001);
  }

  /** FileName(0), ..., FileName(k - 1) in counter order. */
  function Names(k: nat): (r: seq<string>)
    ensures |r| == k && forall i :: 0 <= i < k ==> r[i] == FileName(i)
  {
    if k == 0 then [] else Names(k - 1) + [FileName(k - 1)]
  }

  /**
   * While the counter stays below 10000, the monitor lists a folder that
   * k creates filled as FileName(0), ..., FileName(k - 1), in that order.
   */
  lemma CreatedListing(p: string, k: nat)
    requires k <= 10000
    ensures Listing(map[p := Created(k)], p) == Names(k)
  {
    var names := Names(k);
    CreatedKeys(k);
    forall i, j | 0 <= i < j < k
      ensures NameLe(names[i], names[j]) && names[i] != names[j]
    {
      FileNameOrder(i, j);
    }
    forall x
      ensures x in names <==> x in Created(k) && !Hidden(x)
    {
      if x in Created(k) {
        var i: nat :| i < k && x == FileName(i);
        assert names[i] == x;
      }
    }
    SortedUnique(Listing(map[p := Created(k)], p), names);
  }
}
