// The dungeon levels kept on disk: which files a snapshot owns, putting exactly
// those back, and carrying them from process to process as one blob.

module LevelFiles {

  type Byte = b: int | 0 <= b < 256

  type Name = seq<Byte> // a file name, without its terminating NUL

  type Dir = map<Name, seq<Byte>>

  function Ascii(s: string): Name { seq(|s|, i requires 0 <= i < |s| => s[i] as int % 256) }

  const DOT: Byte := 46
  const SLASH: Byte := 47

  const RECORD: Name := Ascii("record")

  predicate IsDigit(b: Byte) { 48 <= b <= 57 }

  predicate AllDigits(s: Name) { forall i | 0 <= i < |s| :: IsDigit(s[i]) }

  // ---- names ----

  /** The position of the last dot, or |s|. */
  function LastDot(s: Name): (k: nat)
    ensures k <= |s|
    ensures k < |s| ==> s[k] == DOT && forall i | k < i < |s| :: s[i] != DOT
    ensures k == |s| ==> forall i | 0 <= i < |s| :: s[i] != DOT
  {
    if s == [] then 0
    else if s[|s| - 1] == DOT then |s| - 1
    else
      var k := LastDot(s[..|s| - 1]);
      if k == |s| - 1 then |s| else k
  }

  function Decimal(n: nat): (d: Name)
    ensures d != [] && AllDigits(d)
  {
    if n < 10 then [48 + n] else Decimal(n / 10) + [48 + n % 10]
  }

  /** The game renames its lock in place, from the last dot on, for every level
      file it opens. */
  function SetLevelfileName(file: Name, lev: nat): Name {
    file[..LastDot(file)] + [DOT] + Decimal(lev)
  }

  /** The base of the lock's current name. */
  function LockBase(lock: Name): Name {
    var k := LastDot(lock);
    if k + 1 < |lock| && AllDigits(lock[k + 1..]) then lock[..k] else lock
  }

  predicate IsLevelfile(name: Name, base: Name) {
    base <= name && |name| > |base| + 1 && name[|base|] == DOT && AllDigits(name[|base| + 1..])
  }

  predicate IsSnapshotFile(name: Name, base: Name) {
    || IsLevelfile(name, base)
    || Ascii("bon") <= name
    || name == base + Ascii(".bn")
    || name in {RECORD, Ascii("logfile"), Ascii("xlogfile")}
  }

  /** The base is what stands before a dot and digits at the end of the lock's name; and
      if nothing does, it is the whole name. */
  lemma LockBaseExact(lock: Name, b: Name, d: Name)
    ensures d != [] && AllDigits(d) && lock == b + [DOT] + d ==> LockBase(lock) == b
    ensures LockBase(lock) == lock || exists d: Name :: d != [] && AllDigits(d) && lock == LockBase(lock) + [DOT] + d
  {
    var k := LastDot(lock);
    if d != [] && AllDigits(d) && lock == b + [DOT] + d {
      assert lock[|b|] == DOT;
      assert forall i | |b| < i < |lock| :: lock[i] == d[i - |b| - 1];
      assert k == |b| && lock[k + 1..] == d;
    }
    if LockBase(lock) != lock {
      assert lock == LockBase(lock) + [DOT] + lock[k + 1..];
    }
  }

  /** What a decimal says. */
  function Value(d: Name): int {
    if d == [] then 0 else Value(d[..|d| - 1]) * 10 + (d[|d| - 1] as int - 48)
  }

  /** A level is written as the decimal number it is, without leading zeros. */
  lemma {:induction false} DecimalExact(n: nat)
    ensures Value(Decimal(n)) == n
    ensures n >= 10 ==> Decimal(n)[0] != 48
    decreases n
  {
    if n >= 10 {
      DecimalExact(n / 10);
      var d := Decimal(n / 10) + [48 + n % 10];
      assert d[..|d| - 1] == Decimal(n / 10);
      if n < 100 {
        assert Decimal(n / 10) == [48 + n / 10];
      }
    } else {
      assert Value([]) == 0 && [48 + n][..0] == [];
    }
  }

  /** So no two levels have the same file. */
  lemma LevelNamesDiffer(file: Name, lev: nat, other: nat)
    ensures SetLevelfileName(file, lev) == SetLevelfileName(file, other) <==> lev == other
  {
    DecimalExact(lev);
    DecimalExact(other);
    RenameParts(file, lev);
    RenameParts(file, other);
  }

  /** The level files of a base are the names that are the base, a dot, and digits. */
  lemma LevelfileExact(name: Name, base: Name)
    ensures IsLevelfile(name, base) <==> exists d: Name :: d != [] && AllDigits(d) && name == base + [DOT] + d
  {
    if IsLevelfile(name, base) {
      var d := name[|base| + 1..];
      assert name == base + [DOT] + d;
    }
    if d: Name :| d != [] && AllDigits(d) && name == base + [DOT] + d {
      assert name[|base| + 1..] == d;
    }
  }

  lemma DigitExact(b: Byte)
    ensures IsDigit(b) <==> b in Ascii("0123456789")
  {
    var all := Ascii("0123456789");
    if IsDigit(b) {
      assert all[b - 48] == b;
    }
  }

  /** The files that a snapshot owns: the level files of the base; bones, under any name
      that begins with "bon"; the base's bones in the making; and the three records. */
  lemma SnapshotFileExact(name: Name, base: Name)
    ensures IsSnapshotFile(name, base) <==>
              || (exists d: Name :: d != [] && AllDigits(d) && name == base + [DOT] + d)
              || (exists s: Name :: name == [98, 111, 110] + s)
              || name == base + [DOT, 98, 110]
              || name == [114, 101, 99, 111, 114, 100]
              || name == [108, 111, 103, 102, 105, 108, 101]
              || name == [120, 108, 111, 103, 102, 105, 108, 101]
  {
    LevelfileExact(name, base);
    assert Ascii("bon") == [98, 111, 110] && Ascii(".bn") == [DOT, 98, 110];
    assert RECORD == [114, 101, 99, 111, 114, 100];
    assert Ascii("logfile") == [108, 111, 103, 102, 105, 108, 101];
    assert Ascii("xlogfile") == [120, 108, 111, 103, 102, 105, 108, 101];
    if Ascii("bon") <= name {
      assert name == [98, 111, 110] + name[3..];
    }
  }

  method FindLockBase(lock: Name) returns (base: Name)
    ensures base == LockBase(lock)
  {
    var i := |lock|;
    while i > 0 && lock[i - 1] != DOT
      invariant 0 <= i <= |lock| && forall j | i <= j < |lock| :: lock[j] != DOT
    {
      i := i - 1;
    }
    base := lock;
    if i > 0 {
      assert LastDot(lock) == i - 1;
      var q := i;
      while q < |lock| && IsDigit(lock[q])
        invariant i <= q <= |lock| && forall j | i <= j < q :: IsDigit(lock[j])
      {
        q := q + 1;
      }
      if i < |lock| && q == |lock| {
        base := lock[..i - 1];
      } else if i < |lock| {
        assert !IsDigit(lock[i..][q - i]);
      }
    }
  }

  lemma RenameParts(file: Name, lev: nat)
    ensures var stem, name := file[..LastDot(file)], SetLevelfileName(file, lev);
            LastDot(name) == |stem| && name[..|stem|] == stem && name[|stem| + 1..] == Decimal(lev)
  {
    var stem, d := file[..LastDot(file)], Decimal(lev);
    var name := SetLevelfileName(file, lev);
    assert name[|stem|] == DOT;
    forall i | |stem| < i < |name| ensures name[i] != DOT {
      assert name[i] == d[i - |stem| - 1];
    }
  }

  /** Whatever level the lock was last renamed for, its base is what the game
      started from, up to a dot of its own; renaming again forgets the level
      before; and every level file of the lock is recognised by that base. */
  lemma LockBaseInvertsRename(file: Name, lev: nat, other: nat)
    ensures LockBase(SetLevelfileName(file, lev)) == file[..LastDot(file)]
    ensures LockBase(SetLevelfileName(file, lev)) == file <==> DOT !in file
    ensures SetLevelfileName(SetLevelfileName(file, lev), other) == SetLevelfileName(file, other)
    ensures IsLevelfile(SetLevelfileName(file, other), LockBase(SetLevelfileName(file, lev)))
  {
    hide LastDot, Decimal;
    var stem := file[..LastDot(file)];
    RenameParts(file, lev);
    RenameParts(file, other);
    if LastDot(file) == |file| {
      assert stem == file;
    } else {
      assert file[LastDot(file)] == DOT;
    }
  }

  // ---- the files a snapshot owns ----

  datatype File = File(name: Name, data: seq<Byte>)

  const NAME_MAX: nat := 64

  /** The files of a list, a later one of the same name over an earlier one. */
  function Contents(files: seq<File>): Dir {
    if files == [] then map[] else Contents(files[..|files| - 1])[files[|files| - 1].name := files[|files| - 1].data]
  }

  function Owned(dir: Dir, base: Name): Dir { map n | n in dir && IsSnapshotFile(n, base) :: dir[n] }

  function NotOwned(dir: Dir, base: Name): Dir { map n | n in dir && !IsSnapshotFile(n, base) :: dir[n] }

  predicate SameFile(a: Dir, b: Dir, n: Name) { (n in a <==> n in b) && (n in a ==> a[n] == b[n]) }

  lemma {:induction false} ContentsSnoc(files: seq<File>, f: File)
    ensures Contents(files + [f]) == Contents(files)[f.name := f.data]
  {
    assert (files + [f])[..|files|] == files;
  }

  lemma NothingIn()
    ensures Contents([]) == map[]
  {
  }

  lemma {:induction false} NamesInContents(files: seq<File>, n: Name)
    ensures n in Contents(files) <==> exists i | 0 <= i < |files| :: files[i].name == n
  {
    if files != [] {
      var front := files[..|files| - 1];
      NamesInContents(front, n);
      if n in Contents(files) && n != files[|files| - 1].name {
        var i :| 0 <= i < |front| && front[i].name == n;
        assert files[i].name == n;
      }
      if exists i | 0 <= i < |files| :: files[i].name == n {
        var i :| 0 <= i < |files| && files[i].name == n;
        if i < |front| {
          assert front[i].name == n;
        }
      }
    }
  }

  // ---- a file system that may fail ----

  /** How the writing of one file goes: it may not open, stop after `n` bytes, or
      stop after `n` bytes of the stamp. */
  datatype Fate = Fine | Unopened | Short(n: nat) | Unstamped(n: nat)

  /** What goes wrong during one call: while writing the i-th file of a bundle, when
      listing the directory, on reading or on removing a file of some name. */
  datatype Io = Io(fate: nat -> Fate, listed: bool, unreadable: set<Name>, stuck: set<Name>)

  predicate Stamps(f: File, stamp: bool, pid: seq<Byte>) { stamp && |f.data| >= |pid| }

  /** Writing `f` fails. (`ok` says that nothing failed before: after a failure
      nothing is stamped any more.) */
  predicate Fails(f: File, fate: Fate, ok: bool, stamp: bool, pid: seq<Byte>) {
    match fate
    case Fine => false
    case Unopened => true
    case Short(n) => n < |f.data|
    case Unstamped(n) => ok && Stamps(f, stamp, pid) && n < |pid|
  }

  /** What the file holds afterwards, if it opened. */
  function Left(f: File, fate: Fate, ok: bool, stamp: bool, pid: seq<Byte>): seq<Byte> {
    if fate.Short? && fate.n < |f.data| then f.data[..fate.n]
    else if !ok || !Stamps(f, stamp, pid) then f.data
    else if fate.Unstamped? && fate.n < |pid| then pid[..fate.n] + f.data[fate.n..]
    else pid + f.data[|pid|..]
  }

  // ---- paths ----

  type Path = seq<Name> // of a directory, from the root

  type Disk = map<Path, Dir>

  /** What can be the name of a file in a directory. */
  predicate Plain(n: Name) { n != [] && SLASH !in n && n != [DOT] && n != [DOT, DOT] }

  predicate AllPlain(files: seq<File>) { forall i | 0 <= i < |files| :: Plain(files[i].name) }

  predicate ValidDisk(fs: Disk) { forall p, n | p in fs && n in fs[p] :: Plain(n) }

  datatype Place = Nowhere | Place(dir: Path, name: Name)

  /** A path's parts, between the slashes. */
  function Split(s: Name): (r: seq<Name>)
    ensures |r| > 0
  {
    if s == [] then [[]]
    else if s[0] == SLASH then [[]] + Split(s[1..])
    else
      var r := Split(s[1..]);
      [[s[0]] + r[0]] + r[1..]
  }

  /** The file to which the parts of a path lead from `p`. */
  function Reach(fs: Disk, p: Path, parts: seq<Name>): Place
    requires parts != []
    decreases |parts|
  {
    if p !in fs then Nowhere
    else if |parts| == 1 then if Plain(parts[0]) then Place(p, parts[0]) else Nowhere
    else if parts[0] == [] || parts[0] == [DOT] then Reach(fs, p, parts[1..])
    else if parts[0] == [DOT, DOT] then Reach(fs, if p == [] then p else p[..|p| - 1], parts[1..])
    else Reach(fs, p + [parts[0]], parts[1..])
  }

  /** The file that "directory/name" opens. */
  function Where(fs: Disk, at: Path, name: Name): Place { Reach(fs, at, Split(name)) }

  lemma {:induction false} SplitPlain(s: Name)
    requires SLASH !in s
    ensures Split(s) == [s]
  {
    if s != [] {
      SplitPlain(s[1..]);
      assert [s[0]] + s[1..] == s;
    }
  }

  lemma {:induction false} SplitAt(a: Name, b: Name)
    requires SLASH !in a
    ensures Split(a + [SLASH] + b) == [a] + Split(b)
    decreases |a|
  {
    var s := a + [SLASH] + b;
    if a == [] {
      assert s[1..] == b;
    } else {
      SplitAt(a[1..], b);
      assert s[1..] == a[1..] + [SLASH] + b;
      assert ([a[1..]] + Split(b))[1..] == Split(b) && [a[0]] + a[1..] == a;
    }
  }

  /** The parts of a path, put together again with slashes, are the path, and there is
      no slash in them. */
  function Join(parts: seq<Name>): Name
    requires parts != []
  {
    if |parts| == 1 then parts[0] else parts[0] + [SLASH] + Join(parts[1..])
  }

  lemma {:induction false} SplitExact(s: Name)
    ensures Join(Split(s)) == s && forall i | 0 <= i < |Split(s)| :: SLASH !in Split(s)[i]
  {
    if s != [] {
      SplitExact(s[1..]);
      var r := Split(s[1..]);
      if s[0] == SLASH {
        assert ([[]] + r)[1..] == r;
        assert [] + [SLASH] + Join(r) == s;
      } else {
        var r' := [[s[0]] + r[0]] + r[1..];
        assert r'[1..] == r[1..];
        assert Join(r') == [s[0]] + Join(r) by {
          if |r| > 1 {
            assert [s[0]] + r[0] + [SLASH] + Join(r[1..]) == [s[0]] + (r[0] + [SLASH] + Join(r[1..]));
          }
        }
      }
    }
  }

  /** One part of a path: staying, going up, going down. */
  lemma ReachStep(fs: Disk, p: Path, first: Name, parts: seq<Name>)
    requires parts != [] && p in fs
    ensures Reach(fs, p, [[]] + parts) == Reach(fs, p, parts) == Reach(fs, p, [[DOT]] + parts)
    ensures Reach(fs, p, [[DOT, DOT]] + parts) == Reach(fs, if p == [] then [] else p[..|p| - 1], parts)
    ensures Plain(first) ==> Reach(fs, p, [first] + parts) == Reach(fs, p + [first], parts)
    ensures Reach(fs, p, [[]]) == Reach(fs, p, [[DOT]]) == Reach(fs, p, [[DOT, DOT]]) == Nowhere
    ensures Plain(first) ==> Reach(fs, p, [first]) == Place(p, first)
  {
    assert forall n: Name :: ([n] + parts)[1..] == parts;
  }

  /** The plain names are those that a path of one part may end in; and a directory may
      have them. */
  lemma PlainExact(n: Name)
    ensures Plain(n) <==> Split(n) == [n] && n !in {[], [DOT], [DOT, DOT]}
    ensures ValidDisk(map[[] := map[n := []]]) <==> Plain(n)
  {
    SplitExact(n);
    if SLASH !in n {
      SplitPlain(n);
    }
    hide Split, Plain, Join;
    var fs: Disk := map[[] := map[n := []]];
    assert [] in fs && n in fs[[]];
  }

  /** The names of a lock's level files are, if it has no slash, and that of the record. */
  lemma LevelNamesPlain(file: Name, lev: nat)
    ensures SLASH !in file ==> Plain(SetLevelfileName(file, lev))
    ensures Plain(RECORD)
  {
    var d, stem := Decimal(lev), file[..LastDot(file)];
    var name := SetLevelfileName(file, lev);
    hide Decimal, LastDot;
    assert name == stem + [DOT] + d;
    if SLASH !in file {
      assert SLASH !in stem && SLASH !in d;
      assert IsDigit(name[|name| - 1]);
    }
    assert |RECORD| == 6 && forall i | 0 <= i < 6 :: RECORD[i] != SLASH;
  }

  /** A plain name leads to the file of that name. */
  lemma PlainWhere(fs: Disk, at: Path, n: Name)
    requires at in fs && Plain(n)
    ensures Where(fs, at, n) == Place(at, n)
  {
    SplitPlain(n);
  }

  lemma {:induction false} ReachFile(fs: Disk, fs': Disk, p: Path, parts: seq<Name>)
    requires parts != [] && fs'.Keys == fs.Keys
    ensures Reach(fs', p, parts) == Reach(fs, p, parts)
    ensures var w := Reach(fs, p, parts); w.Place? ==> w.dir in fs && Plain(w.name)
    decreases |parts|
  {
    if p in fs && |parts| > 1 {
      ReachFile(fs, fs', p, parts[1..]);
      ReachFile(fs, fs', if p == [] then p else p[..|p| - 1], parts[1..]);
      ReachFile(fs, fs', p + [parts[0]], parts[1..]);
    }
  }

  // ---- writing ----

  datatype Maybe = Absent | Present(data: seq<Byte>)

  function Look(fs: Disk, w: Place): Maybe {
    if w.Place? && w.dir in fs && w.name in fs[w.dir] then Present(fs[w.dir][w.name]) else Absent
  }

  function Put(fs: Disk, w: Place, data: seq<Byte>): Disk {
    if w.Place? && w.dir in fs then fs[w.dir := fs[w.dir][w.name := data]] else fs
  }

  /** The disk after writing one file into the directory at `at`, and whether all
      has gone well so far. */
  function WrittenOne(fs: Disk, ok: bool, at: Path, f: File, fate: Fate, stamp: bool, pid: seq<Byte>): (Disk, bool) {
    var w := Where(fs, at, f.name);
    if w == Nowhere || fate.Unopened? then (fs, false)
    else (Put(fs, w, Left(f, fate, ok, stamp, pid)), ok && !Fails(f, fate, ok, stamp, pid))
  }

  /** After writing the files in turn. */
  function Written(fs: Disk, at: Path, files: seq<File>, stamp: bool, pid: seq<Byte>, fate: nat -> Fate): (Disk, bool) {
    if files == [] then (fs, true)
    else
      var k := |files| - 1;
      var (d, ok) := Written(fs, at, files[..k], stamp, pid, fate);
      WrittenOne(d, ok, at, files[k], fate(k), stamp, pid)
  }

  /** Where the files of a bundle go, and what each of those places gets. */
  function Landed(fs: Disk, at: Path, files: seq<File>, stamp: bool, pid: seq<Byte>): map<Place, seq<Byte>> {
    if files == [] then map[]
    else
      var k := |files| - 1;
      var before, w := Landed(fs, at, files[..k], stamp, pid), Where(fs, at, files[k].name);
      if w == Nowhere then before else before[w := StampedFile(files[k], stamp, pid).data]
  }

  lemma {:induction false} WrittenKeys(fs: Disk, at: Path, files: seq<File>, stamp: bool, pid: seq<Byte>, fate: nat -> Fate)
    ensures Written(fs, at, files, stamp, pid, fate).0.Keys == fs.Keys
    decreases |files|
  {
    hide Where, Left, Fails;
    if files != [] {
      WrittenKeys(fs, at, files[..|files| - 1], stamp, pid, fate);
    }
  }

  lemma WrittenLast(fs: Disk, at: Path, files: seq<File>, stamp: bool, pid: seq<Byte>, fate: nat -> Fate) returns (w: Place)
    requires files != []
    ensures var k := |files| - 1;
            var (d, ok) := Written(fs, at, files[..k], stamp, pid, fate);
            && w == Where(fs, at, files[k].name) == Where(d, at, files[k].name)
            && (w.Place? ==> w.dir in fs && w.dir in d && Plain(w.name))
            && Written(fs, at, files, stamp, pid, fate)
               == (if w == Nowhere || fate(k).Unopened? then (d, false)
                   else (Put(d, w, Left(files[k], fate(k), ok, stamp, pid)), ok && !Fails(files[k], fate(k), ok, stamp, pid)))
  {
    var k := |files| - 1;
    w := Where(fs, at, files[k].name);
    WrittenKeys(fs, at, files[..k], stamp, pid, fate);
    ReachFile(fs, Written(fs, at, files[..k], stamp, pid, fate).0, at, Split(files[k].name));
  }

  /** Writing goes well exactly if every name leads to a file and none fails. */
  lemma {:induction false} WrittenOk(fs: Disk, at: Path, files: seq<File>, stamp: bool, pid: seq<Byte>, fate: nat -> Fate)
    ensures Written(fs, at, files, stamp, pid, fate).1 <==>
              forall i | 0 <= i < |files| :: Where(fs, at, files[i].name).Place? && !Fails(files[i], fate(i), true, stamp, pid)
    decreases |files|
  {
    hide Where, Written, Fails, Left;
    if files != [] {
      var k := |files| - 1;
      WrittenOk(fs, at, files[..k], stamp, pid, fate);
      var w := WrittenLast(fs, at, files, stamp, pid, fate);
      FailsFirst(files[k], fate(k), Written(fs, at, files[..k], stamp, pid, fate).1, stamp, pid);
    } else {
      NothingWritten(fs, at, stamp, pid, fate);
    }
  }

  lemma NothingWritten(fs: Disk, at: Path, stamp: bool, pid: seq<Byte>, fate: nat -> Fate)
    ensures Written(fs, at, [], stamp, pid, fate) == (fs, true)
  {
  }

  lemma FailsFirst(f: File, fate: Fate, ok: bool, stamp: bool, pid: seq<Byte>)
    ensures fate.Unopened? ==> Fails(f, fate, ok, stamp, pid)
    ensures ok ==> Fails(f, fate, ok, stamp, pid) == Fails(f, fate, true, stamp, pid)
  {
  }

  /** Then every place a name leads to holds its file, whole and stamped. Whether it
      goes well or not, all other files of the disk are as they were. */
  lemma {:induction false} WrittenLands(
    fs: Disk, at: Path, files: seq<File>, stamp: bool, pid: seq<Byte>, fate: nat -> Fate, w: Place)
    ensures var (d, ok) := Written(fs, at, files, stamp, pid, fate);
            var landed := Landed(fs, at, files, stamp, pid);
            && (w !in landed ==> Look(d, w) == Look(fs, w))
            && (ok && w in landed ==> Look(d, w) == Present(landed[w]))
    decreases |files|
  {
    if files != [] {
      var k := |files| - 1;
      WrittenLands(fs, at, files[..k], stamp, pid, fate, w);
      var last := WrittenLast(fs, at, files, stamp, pid, fate);
      WholeIfFine(files[k], fate(k), stamp, pid);
      hide Where, Written, Fails, Left, StampedFile;
    }
  }

  /** Writing a file fails exactly if it does not open, if bytes of it are missing
      afterwards, or if bytes of a stamp that was due are. */
  lemma FailsExact(f: File, fate: Fate, ok: bool, stamp: bool, pid: seq<Byte>)
    ensures Fails(f, fate, ok, stamp, pid) <==>
              || fate.Unopened?
              || |Left(f, fate, ok, stamp, pid)| < |f.data|
              || (fate.Unstamped? && ok && stamp && |f.data| >= |pid| && fate.n < |pid|)
  {
  }

  /** What is in a file whose writing failed: its beginning, or all of it with the
      beginning of the stamp; the bytes behind the stamp are the file's own. */
  lemma LeftExact(f: File, fate: Fate, ok: bool, stamp: bool, pid: seq<Byte>)
    ensures var left := Left(f, fate, ok, stamp, pid);
            && |left| == (if fate.Short? && fate.n < |f.data| then fate.n else |f.data|)
            && forall i | 0 <= i < |left| ::
                 left[i] == if |left| == |f.data| && ok && Stamps(f, stamp, pid) && i < |pid| && !(fate.Unstamped? && fate.n <= i)
                              && !(fate.Short? && fate.n < |f.data|)
                            then pid[i] else f.data[i]
  {
  }

  lemma WholeIfFine(f: File, fate: Fate, stamp: bool, pid: seq<Byte>)
    ensures !Fails(f, fate, true, stamp, pid) ==>
              !fate.Unopened? && Left(f, fate, true, stamp, pid) == StampedFile(f, stamp, pid).data
    ensures StampedFile(f, stamp, pid).name == f.name
  {
  }

  /** Only places that a name leads to are in `Landed`. */
  lemma {:induction false} LandedWhere(fs: Disk, at: Path, files: seq<File>, stamp: bool, pid: seq<Byte>, w: Place)
    ensures w in Landed(fs, at, files, stamp, pid) ==> w.Place? && w.dir in fs && Plain(w.name)
    ensures w in Landed(fs, at, files, stamp, pid) <==> w.Place? && exists i | 0 <= i < |files| :: Where(fs, at, files[i].name) == w
    decreases |files|
  {
    if files != [] {
      var k := |files| - 1;
      LandedWhere(fs, at, files[..k], stamp, pid, w);
      ReachFile(fs, fs, at, Split(files[k].name));
      hide Where, StampedFile;
    }
  }

  /** Plain names lead into the directory, each to its own file. */
  lemma {:induction false} LandedPlain(fs: Disk, at: Path, files: seq<File>, stamp: bool, pid: seq<Byte>)
    requires at in fs && AllPlain(files)
    ensures OnlyHere(Landed(fs, at, files, stamp, pid), at, Contents(Stamped(files, stamp, pid)))
    decreases |files|
  {
    hide AllPlain, Landed, Contents, Stamped, StampedFile, OnlyHere, Where, Plain;
    if files == [] {
      NothingLanded(fs, at, files, stamp, pid);
    } else {
      var k, f := |files| - 1, files[|files| - 1];
      PlainFront(files);
      PlainWhere(fs, at, f.name);
      LandedLast(fs, at, files, stamp, pid);
      LandedPlain(fs, at, files[..k], stamp, pid);
      OneMoreHere(Landed(fs, at, files[..k], stamp, pid), at, Contents(Stamped(files[..k], stamp, pid)),
                  f.name, StampedFile(f, stamp, pid).data);
    }
  }

  lemma PlainFront(files: seq<File>)
    requires AllPlain(files) && files != []
    ensures AllPlain(files[..|files| - 1]) && Plain(files[|files| - 1].name)
  {
  }

  lemma NothingLanded(fs: Disk, at: Path, files: seq<File>, stamp: bool, pid: seq<Byte>)
    requires files == []
    ensures OnlyHere(Landed(fs, at, files, stamp, pid), at, Contents(Stamped(files, stamp, pid)))
  {
  }

  lemma LandedLast(fs: Disk, at: Path, files: seq<File>, stamp: bool, pid: seq<Byte>)
    requires files != [] && Where(fs, at, files[|files| - 1].name) == Place(at, files[|files| - 1].name)
    ensures var k, f := |files| - 1, files[|files| - 1];
            var data := StampedFile(f, stamp, pid).data;
            && Landed(fs, at, files, stamp, pid) == Landed(fs, at, files[..k], stamp, pid)[Place(at, f.name) := data]
            && Contents(Stamped(files, stamp, pid)) == Contents(Stamped(files[..k], stamp, pid))[f.name := data]
  {
    var k := |files| - 1;
    StampedSnoc(files, k, stamp, pid);
    assert files[..k + 1] == files && StampedFile(files[k], stamp, pid).name == files[k].name;
    ContentsSnoc(Stamped(files[..k], stamp, pid), StampedFile(files[k], stamp, pid));
    hide Contents, Stamped, StampedFile, Where;
  }

  /** These places are all in the directory, with what `sent` has for their names. */
  ghost predicate OnlyHere(landed: map<Place, seq<Byte>>, at: Path, sent: Dir) {
    forall w :: (w in landed <==> w.Place? && w.dir == at && w.name in sent) && (w in landed ==> landed[w] == sent[w.name])
  }

  lemma OneMoreHere(landed: map<Place, seq<Byte>>, at: Path, sent: Dir, n: Name, data: seq<Byte>)
    requires OnlyHere(landed, at, sent)
    ensures OnlyHere(landed[Place(at, n) := data], at, sent[n := data])
  {
  }

  /** One environment's writable directory, at `at` on the disk. */
  class Hackdir {
    const at: Path
    var fs: Disk

    ghost predicate Valid()
      reads this
    {
      at in fs && ValidDisk(fs)
    }

    constructor (at: Path, fs: Disk)
      requires at in fs && ValidDisk(fs)
      ensures Valid() && this.at == at && this.fs == fs
    {
      this.at := at;
      this.fs := fs;
    }

    /** Bundle every file a snapshot owns, in whatever order the directory lists
        them. It fails, and nothing is bundled, exactly when the directory cannot be
        listed or one of them cannot be read or has a name too long to restore. */
    method Bundle(base: Name, io: Io) returns (ok: bool, files: seq<File>)
      requires Valid()
      ensures ok <==> io.listed && forall n | n in Owned(fs[at], base) :: |n| < NAME_MAX && n !in io.unreadable
      ensures if ok then Contents(files) == Owned(fs[at], base) else files == []
      ensures AllPlain(files) && forall i | 0 <= i < |files| :: |files[i].name| < NAME_MAX
    {
      hide IsSnapshotFile, Contents, Plain;
      files := [];
      if !io.listed {
        return false, [];
      }
      var dir := fs[at];
      assert Contents(files) == map[] by { NothingIn(); }
      var unread := dir.Keys;
      while unread != {}
        invariant unread <= dir.Keys
        invariant AllPlain(files) && forall i | 0 <= i < |files| :: |files[i].name| < NAME_MAX
        invariant Contents(files) == map n | n in Owned(dir, base) && n !in unread :: dir[n]
        invariant forall n | n in Contents(files) :: |n| < NAME_MAX && n !in io.unreadable
        decreases unread
      {
        var name :| name in unread;
        if IsSnapshotFile(name, base) {
          if |name| >= NAME_MAX || name in io.unreadable {
            assert name in Owned(dir, base);
            return false, [];
          }
          ContentsSnoc(files, File(name, dir[name]));
          files := files + [File(name, dir[name])];
        }
        unread := unread - {name};
      }
      ok := true;
    }

    /** Write one file: open it, which empties it, write, and perhaps stamp. */
    method WriteFile(f: File, fate: Fate, before: bool, stamp: bool, pid: seq<Byte>) returns (ok: bool)
      modifies this
      ensures (fs, ok) == WrittenOne(old(fs), before, at, f, fate, stamp, pid)
    {
      var w := Where(fs, at, f.name);
      if w == Nowhere || fate.Unopened? {
        return false;
      }
      ok := before;
      var data := f.data;
      if fate.Short? && fate.n < |f.data| {
        data := f.data[..fate.n];
        ok := false;
      }
      if ok && stamp && |f.data| >= |pid| {
        if fate.Unstamped? && fate.n < |pid| {
          data := pid[..fate.n] + f.data[fate.n..];
          ok := false;
        } else {
          data := pid + f.data[|pid|..];
        }
      }
      fs := Put(fs, w, data);
    }

    /** Write the bundled files; with `stamp`, each one that is long enough then
        gets this process's id in front. */
    method WriteFiles(files: seq<File>, stamp: bool, pid: seq<Byte>, io: Io) returns (ok: bool)
      modifies this
      ensures (fs, ok) == Written(old(fs), at, files, stamp, pid, io.fate)
    {
      ok := true;
      var i := 0;
      while i < |files|
        invariant i <= |files|
        invariant (fs, ok) == Written(old(fs), at, files[..i], stamp, pid, io.fate)
      {
        ok := WriteFile(files[i], io.fate(i), ok, stamp, pid);
        assert files[..i + 1][..i] == files[..i];
        i := i + 1;
      }
      assert files[..i] == files;
    }

    /** Remove every file a snapshot owns whose name is not in the bundle. */
    method RemoveStale(files: seq<File>, base: Name, io: Io) returns (ok: bool)
      requires at in fs
      modifies this
      ensures fs == if io.listed then old(fs)[at := NotStale(old(fs)[at], files, base, io.stuck)] else old(fs)
      ensures ok <==> io.listed && forall n | n in old(fs)[at] && n in io.stuck :: !Stale(n, files, base)
    {
      if !io.listed {
        return false;
      }
      hide IsSnapshotFile, Contents;
      ok := true;
      var dir := fs[at];
      var unread := dir.Keys;
      while unread != {}
        invariant fs == old(fs) && unread <= dir.Keys
        invariant dir == map n | n in old(fs)[at] && (n in unread || n in io.stuck || !Stale(n, files, base)) :: old(fs)[at][n]
        invariant ok <==> forall n | n in old(fs)[at] && n !in unread && n in io.stuck :: !Stale(n, files, base)
        decreases unread
      {
        var name :| name in unread;
        unread := unread - {name};
        if IsSnapshotFile(name, base) {
          var keep := Kept(files, name);
          NamesInContents(files, name);
          if !keep {
            if name in io.stuck {
              ok := false;
            } else {
              dir := dir - {name};
            }
          }
        }
      }
      assert dir == NotStale(old(fs)[at], files, base, io.stuck);
      fs := fs[at := dir];
    }

    /** nle_fr_restore_levelfiles. It says 0 exactly if nothing failed. For names that
        can be names in a directory the disk is then what was asked for, and a file
        that is neither owned nor in the bundle stays, whatever fails. A restore that
        says 0 has done what was asked for exactly if all names were such names. */
    method RestoreFiles(files: seq<File>, base: Name, stamp: bool, pid: seq<Byte>, io: Io) returns (rc: int)
      requires Valid()
      modifies this
      ensures Valid() && (fs, rc == 0) == Restored(old(fs), at, files, base, stamp, pid, io) && rc in {0, -1}
      ensures rc == 0 ==> (fs == Asked(old(fs), at, files, base, stamp, pid) <==> AllPlain(files))
      ensures AllPlain(files) ==> (rc == 0 <==> Clean(old(fs)[at], files, base, stamp, pid, io))
      ensures AllPlain(files) ==> fs == old(fs)[at := fs[at]]
      ensures AllPlain(files) ==> Bystanders(fs[at], files, base) == Bystanders(old(fs)[at], files, base)
    {
      RestoreExactly(fs, at, files, base, stamp, pid, io);
      hide *;
      WrittenKeys(fs, at, files, stamp, pid, io.fate);
      var written := WriteFiles(files, stamp, pid, io);
      var removed := RemoveStale(files, base, io);
      rc := if written && removed then 0 else -1;
    }

    /** nle_fr_levelfiles_load: the code that says why nothing was installed, or how
        the installation went. `room` is how many entries the process has memory for. */
    method Load(blob: seq<Byte>, base: Name, pid: seq<Byte>, room: nat, io: Io) returns (rc: int)
      requires Valid()
      modifies this
      ensures Valid()
      ensures var parsed := Parse(blob);
              && (Parse(blob) == Bad(1) ==> rc == 1) && (Parse(blob) == Bad(2) ==> rc == 2)
              && (rc == 3 <==> Parse(blob) != Bad(1) && Parse(blob) != Bad(2) && UnLe(blob[8..12]) > room)
              && (rc == 4 <==> Parse(blob) == Bad(4) && UnLe(blob[8..12]) <= room)
              && (rc in {1, 2, 3, 4} ==> fs == old(fs))
              && (rc !in {1, 2, 3, 4} ==>
                    && parsed.Good? && rc in {0, 5}
                    && (fs, rc == 0) == Restored(old(fs), at, parsed.value, base, true, pid, io)
                    && (AllPlain(parsed.value) ==>
                          && (rc == 0 <==> Clean(old(fs)[at], parsed.value, base, true, pid, io))
                          && fs == old(fs)[at := fs[at]]
                          && Bystanders(fs[at], parsed.value, base) == Bystanders(old(fs)[at], parsed.value, base)))
              && (rc == 0 ==> (fs == Asked(old(fs), at, parsed.value, base, true, pid) <==> AllPlain(parsed.value)))
    {
      hide ParseFiles, Clean, Contents, Stamped, Bystanders, UnLe, Restored, Asked, AllPlain, ValidDisk;
      var files: seq<File>;
      rc, files := LevelfilesLoad(blob, room);
      if rc == 0 {
        var installed := RestoreFiles(files, base, true, pid, io);
        rc := if installed == 0 then 0 else 5;
      }
    }
  }

  /** A file that a snapshot owns but the bundle does not have. */
  predicate Stale(n: Name, files: seq<File>, base: Name) { IsSnapshotFile(n, base) && n !in Contents(files) }

  function NotStale(dir: Dir, files: seq<File>, base: Name, stuck: set<Name>): Dir {
    map n | n in dir && (n in stuck || !Stale(n, files, base)) :: dir[n]
  }

  /** The disk after a restore, and whether all went well. */
  ghost function Restored(
    fs: Disk, at: Path, files: seq<File>, base: Name, stamp: bool, pid: seq<Byte>, io: Io): (Disk, bool)
    requires at in fs
  {
    var (d, ok) := Written(fs, at, files, stamp, pid, io.fate);
    var dir := if at in d then d[at] else map[];
    (if io.listed then d[at := NotStale(dir, files, base, io.stuck)] else d,
     ok && io.listed && forall n | n in dir && n in io.stuck :: !Stale(n, files, base))
  }

  /** The disk that a restore is to leave. */
  function Asked(fs: Disk, at: Path, files: seq<File>, base: Name, stamp: bool, pid: seq<Byte>): Disk
    requires at in fs
  {
    fs[at := NotOwned(fs[at], base) + Contents(Stamped(files, stamp, pid))]
  }

  /** Nothing fails that restoring these files asks of the file system. */
  ghost predicate Clean(dir: Dir, files: seq<File>, base: Name, stamp: bool, pid: seq<Byte>, io: Io) {
    && (forall i | 0 <= i < |files| :: !Fails(files[i], io.fate(i), true, stamp, pid))
    && io.listed
    && forall n | n in dir && n in io.stuck :: !Stale(n, files, base)
  }

  /** The files that a restore has no business with. */
  function Bystanders(dir: Dir, files: seq<File>, base: Name): Dir {
    map n | n in dir && !IsSnapshotFile(n, base) && n !in Contents(files) :: dir[n]
  }

  lemma BystandersExact(a: Dir, b: Dir, files: seq<File>, base: Name)
    ensures Bystanders(a, files, base) == Bystanders(b, files, base) <==>
              forall n | !IsSnapshotFile(n, base) && n !in Contents(files) :: SameFile(a, b, n)
  {
    hide IsSnapshotFile, Contents;
    var x, y := Bystanders(a, files, base), Bystanders(b, files, base);
    if x == y {
      forall n | !IsSnapshotFile(n, base) && n !in Contents(files) ensures SameFile(a, b, n) {
        assert n in x <==> n in a;
        assert n in y <==> n in b;
      }
    } else if forall n | !IsSnapshotFile(n, base) && n !in Contents(files) :: SameFile(a, b, n) {
      forall n ensures SameFile(x, y, n) {
        assert IsSnapshotFile(n, base) || n in Contents(files) || SameFile(a, b, n);
      }
      SameFilesSame(x, y);
    }
  }

  /** With plain names only the directory is written, and in it only files of the
      bundle; and if writing goes well all of them are there. */
  lemma WrittenPlain(fs: Disk, at: Path, files: seq<File>, stamp: bool, pid: seq<Byte>, fate: nat -> Fate)
    requires at in fs && AllPlain(files)
    ensures var (d, ok) := Written(fs, at, files, stamp, pid, fate);
            && at in d && d == fs[at := d[at]]
            && (ok <==> forall i | 0 <= i < |files| :: !Fails(files[i], fate(i), true, stamp, pid))
            && (forall n | n !in Contents(files) :: SameFile(d[at], fs[at], n))
            && (ok ==> d[at] == fs[at] + Contents(Stamped(files, stamp, pid)))
  {
    var (d, ok) := Written(fs, at, files, stamp, pid, fate);
    WrittenKeys(fs, at, files, stamp, pid, fate);
    LandedPlain(fs, at, files, stamp, pid);
    WrittenOk(fs, at, files, stamp, pid, fate);
    forall i | 0 <= i < |files| ensures Where(fs, at, files[i].name).Place? {
      PlainWhere(fs, at, files[i].name);
    }
    forall n ensures n in Contents(Stamped(files, stamp, pid)) <==> n in Contents(files) {
      StampedNames(files, stamp, pid, n);
    }
    forall w: Place ensures w.Place? && w.dir in fs && (w.dir != at || w.name !in Contents(files)) ==> Look(d, w) == Look(fs, w)
             ensures ok && w.Place? && w.dir == at && w.name in Contents(files) ==>
                       Look(d, w) == Present(Contents(Stamped(files, stamp, pid))[w.name]) {
      WrittenLands(fs, at, files, stamp, pid, fate, w);
    }
    hide Written, Where, Fails, Contents, Stamped, Landed, AllPlain;
    LooksAlike(fs, d, at, Contents(files), Contents(Stamped(files, stamp, pid)), ok);
  }

  lemma LooksAlike(fs: Disk, d: Disk, at: Path, named: Dir, sent: Dir, ok: bool)
    requires at in fs && d.Keys == fs.Keys && named.Keys == sent.Keys
    requires forall w: Place | w.Place? && w.dir in fs && (w.dir != at || w.name !in named) :: Look(d, w) == Look(fs, w)
    requires ok ==> forall w: Place | w.Place? && w.dir == at && w.name in named :: Look(d, w) == Present(sent[w.name])
    ensures d == fs[at := d[at]]
    ensures forall n | n !in named :: SameFile(d[at], fs[at], n)
    ensures ok ==> d[at] == fs[at] + sent
  {
    forall p, n | p in fs && (p != at || n !in named) ensures SameFile(d[p], fs[p], n) {
      assert Look(d, Place(p, n)) == Look(fs, Place(p, n));
    }
    forall n | ok && n in named ensures n in d[at] && d[at][n] == sent[n] {
      assert Look(d, Place(at, n)) == Present(sent[n]);
    }
    forall p | p in fs && p != at ensures d[p] == fs[p] {
      SameFilesSame(d[p], fs[p]);
    }
    assert ok ==> d[at] == fs[at] + sent by {
      if ok {
        forall n ensures SameFile(d[at], fs[at] + sent, n) {
          assert n in named || SameFile(d[at], fs[at], n);
        }
        SameFilesSame(d[at], fs[at] + sent);
      }
    }
  }

  lemma SameFilesSame(a: Dir, b: Dir)
    requires forall n :: SameFile(a, b, n)
    ensures a == b
  {
    assert forall n | n in a :: SameFile(a, b, n);
    assert forall n | n in b :: SameFile(a, b, n);
    assert a.Keys == b.Keys;
  }

  /** The names of the disk stay names. */
  lemma WrittenValid(fs: Disk, at: Path, files: seq<File>, stamp: bool, pid: seq<Byte>, fate: nat -> Fate)
    requires ValidDisk(fs)
    ensures ValidDisk(Written(fs, at, files, stamp, pid, fate).0)
  {
    var d := Written(fs, at, files, stamp, pid, fate).0;
    WrittenKeys(fs, at, files, stamp, pid, fate);
    forall p, n | p in d && n in d[p] ensures Plain(n) {
      WrittenLands(fs, at, files, stamp, pid, fate, Place(p, n));
      LandedWhere(fs, at, files, stamp, pid, Place(p, n));
      assert Look(d, Place(p, n)) == Present(d[p][n]);
    }
  }

  /** What a restore does, for all names. */
  lemma RestoreExactly(fs: Disk, at: Path, files: seq<File>, base: Name, stamp: bool, pid: seq<Byte>, io: Io)
    requires at in fs && ValidDisk(fs)
    ensures var (r, ok) := Restored(fs, at, files, base, stamp, pid, io);
            && at in r && ValidDisk(r)
            && (ok ==> (r == Asked(fs, at, files, base, stamp, pid) <==> AllPlain(files)))
            && (AllPlain(files) ==>
                  && (ok <==> Clean(fs[at], files, base, stamp, pid, io))
                  && r == fs[at := r[at]] && Bystanders(r[at], files, base) == Bystanders(fs[at], files, base))
  {
    var (r, ok) := Restored(fs, at, files, base, stamp, pid, io);
    WrittenKeys(fs, at, files, stamp, pid, io.fate);
    WrittenValid(fs, at, files, stamp, pid, io.fate);
    if AllPlain(files) {
      WrittenPlain(fs, at, files, stamp, pid, io.fate);
      RestorePlain(fs, at, files, base, stamp, pid, io);
    } else if r == Asked(fs, at, files, base, stamp, pid) {
      NotPlainNotThere(files, stamp, pid, NotOwned(fs[at], base));
    }
    hide Written, Contents, Stamped, Fails, IsSnapshotFile, Plain;
  }

  lemma NotPlainNotThere(files: seq<File>, stamp: bool, pid: seq<Byte>, dir: Dir)
    requires !AllPlain(files)
    ensures exists n :: n in dir + Contents(Stamped(files, stamp, pid)) && !Plain(n)
  {
    var i :| 0 <= i < |files| && !Plain(files[i].name);
    NamesInContents(files, files[i].name);
    StampedNames(files, stamp, pid, files[i].name);
    assert files[i].name in dir + Contents(Stamped(files, stamp, pid));
  }

  lemma RestorePlain(fs: Disk, at: Path, files: seq<File>, base: Name, stamp: bool, pid: seq<Byte>, io: Io)
    requires at in fs && AllPlain(files)
    ensures var (r, ok) := Restored(fs, at, files, base, stamp, pid, io);
            && at in r && r == fs[at := r[at]]
            && (ok <==> Clean(fs[at], files, base, stamp, pid, io))
            && (ok ==> r == Asked(fs, at, files, base, stamp, pid))
            && Bystanders(r[at], files, base) == Bystanders(fs[at], files, base)
  {
    WrittenPlain(fs, at, files, stamp, pid, io.fate);
    var (d, ok) := Written(fs, at, files, stamp, pid, io.fate);
    StaleAlike(d[at], fs[at], files, base, io.stuck);
    hide *;
    if Clean(fs[at], files, base, stamp, pid, io) {
      CleanParts(fs[at], files, base, stamp, pid, io);
      NotStaleWhole(fs[at], files, base, stamp, pid, io.stuck);
    }
    FromWritten(fs, at, files, base, stamp, pid, io, d, ok);
  }

  lemma CleanParts(dir: Dir, files: seq<File>, base: Name, stamp: bool, pid: seq<Byte>, io: Io)
    requires Clean(dir, files, base, stamp, pid, io)
    ensures forall i | 0 <= i < |files| :: !Fails(files[i], io.fate(i), true, stamp, pid)
    ensures forall n | n in dir && n in io.stuck :: !Stale(n, files, base)
  {
    hide Fails, Stale;
  }

  lemma FromWritten(
    fs: Disk, at: Path, files: seq<File>, base: Name, stamp: bool, pid: seq<Byte>, io: Io, d: Disk, ok: bool)
    requires at in fs && (d, ok) == Written(fs, at, files, stamp, pid, io.fate) && at in d && d == fs[at := d[at]]
    requires ok <==> forall i | 0 <= i < |files| :: !Fails(files[i], io.fate(i), true, stamp, pid)
    requires (forall n | n in d[at] && n in io.stuck :: !Stale(n, files, base))
             <==> forall n | n in fs[at] && n in io.stuck :: !Stale(n, files, base)
    requires Bystanders(NotStale(d[at], files, base, io.stuck), files, base) == Bystanders(fs[at], files, base)
    requires Bystanders(d[at], files, base) == Bystanders(fs[at], files, base)
    requires Clean(fs[at], files, base, stamp, pid, io) ==>
               NotStale(d[at], files, base, io.stuck) == NotOwned(fs[at], base) + Contents(Stamped(files, stamp, pid))
    ensures var (r, ok') := Restored(fs, at, files, base, stamp, pid, io);
            && at in r && r == fs[at := r[at]]
            && (ok' <==> Clean(fs[at], files, base, stamp, pid, io))
            && (ok' ==> r == Asked(fs, at, files, base, stamp, pid))
            && Bystanders(r[at], files, base) == Bystanders(fs[at], files, base)
  {
    hide Written, Contents, Stamped, Fails, NotStale, Bystanders, Stale, NotOwned;
  }

  /** Directories that differ in files of the bundle only. */
  lemma StaleAlike(d: Dir, dir: Dir, files: seq<File>, base: Name, stuck: set<Name>)
    requires forall n | n !in Contents(files) :: SameFile(d, dir, n)
    ensures (forall n | n in d && n in stuck :: !Stale(n, files, base)) <==> forall n | n in dir && n in stuck :: !Stale(n, files, base)
    ensures Bystanders(NotStale(d, files, base, stuck), files, base) == Bystanders(dir, files, base)
    ensures Bystanders(d, files, base) == Bystanders(dir, files, base)
  {
    hide IsSnapshotFile, Contents;
    forall n | n in d && n in stuck && Stale(n, files, base) ensures n in dir {
      assert SameFile(d, dir, n);
    }
    forall n | n in dir && n in stuck && Stale(n, files, base) ensures n in d {
      assert SameFile(d, dir, n);
    }
    forall n | !IsSnapshotFile(n, base) && n !in Contents(files) ensures SameFile(d, dir, n) {
    }
  }

  lemma NotStaleWhole(dir: Dir, files: seq<File>, base: Name, stamp: bool, pid: seq<Byte>, stuck: set<Name>)
    requires forall n | n in dir && n in stuck :: !Stale(n, files, base)
    ensures NotStale(dir + Contents(Stamped(files, stamp, pid)), files, base, stuck)
         == NotOwned(dir, base) + Contents(Stamped(files, stamp, pid))
  {
    forall n ensures n in Contents(Stamped(files, stamp, pid)) <==> n in Contents(files) {
      StampedNames(files, stamp, pid, n);
    }
    hide IsSnapshotFile, Contents, Stamped;
  }

  lemma StampedNames(files: seq<File>, stamp: bool, pid: seq<Byte>, n: Name)
    ensures n in Contents(Stamped(files, stamp, pid)) <==> n in Contents(files)
  {
    var s := Stamped(files, stamp, pid);
    NamesInContents(files, n);
    NamesInContents(s, n);
    if i: int :| 0 <= i < |files| && files[i].name == n {
      assert s[i].name == n;
    }
    if i: int :| 0 <= i < |s| && s[i].name == n {
      assert files[i].name == n;
    }
  }

  /** Whether one of the bundled files has this name. */
  method Kept(files: seq<File>, name: Name) returns (keep: bool)
    ensures keep <==> exists i | 0 <= i < |files| :: files[i].name == name
  {
    var i := 0;
    keep := false;
    while i < |files|
      invariant i <= |files|
      invariant forall j | 0 <= j < i :: files[j].name != name
    {
      if files[i].name == name {
        return true;
      }
      i := i + 1;
    }
  }

  function StampedData(data: seq<Byte>, stamp: bool, pid: seq<Byte>): (r: seq<Byte>)
    ensures |r| == |data|
    ensures forall i | 0 <= i < |r| :: r[i] == if stamp && i < |pid| <= |data| then pid[i] else data[i]
  {
    if stamp && |data| >= |pid| then pid + data[|pid|..] else data
  }

  function StampedFile(f: File, stamp: bool, pid: seq<Byte>): File {
    File(f.name, StampedData(f.data, stamp, pid))
  }

  function Stamped(files: seq<File>, stamp: bool, pid: seq<Byte>): (r: seq<File>)
    ensures |r| == |files|
    ensures forall i | 0 <= i < |r| :: r[i] == StampedFile(files[i], stamp, pid)
  {
    if files == [] then []
    else Stamped(files[..|files| - 1], stamp, pid) + [StampedFile(files[|files| - 1], stamp, pid)]
  }

  lemma StampedSnoc(files: seq<File>, i: nat, stamp: bool, pid: seq<Byte>)
    requires i < |files|
    ensures Stamped(files[..i + 1], stamp, pid) == Stamped(files[..i], stamp, pid) + [StampedFile(files[i], stamp, pid)]
  {
    assert files[..i + 1][..i] == files[..i];
  }

  lemma {:induction false} StampedContents(files: seq<File>, stamp: bool, pid: seq<Byte>)
    ensures Contents(Stamped(files, stamp, pid))
         == map n | n in Contents(files) :: StampedData(Contents(files)[n], stamp, pid)
  {
    hide Contents, StampedData;
    if files == [] {
      NothingIn();
    } else {
      var front, last := files[..|files| - 1], files[|files| - 1];
      StampedContents(front, stamp, pid);
      ContentsSnoc(Stamped(front, stamp, pid), StampedFile(last, stamp, pid));
      assert files == front + [last];
      ContentsSnoc(front, last);
    }
  }

  /** A restore puts back exactly the files the snapshot owned: whatever happened
      to the directory in between, afterwards the owned files are those of the
      snapshot, with this process's id in front if asked for, and all other
      files are left as they are now. */
  lemma RestoreExact(before: Dir, now: Dir, base: Name, files: seq<File>, stamp: bool, pid: seq<Byte>)
    requires Contents(files) == Owned(before, base)
    ensures var restored := NotOwned(now, base) + Contents(Stamped(files, stamp, pid));
            && Owned(restored, base) == (map n | n in Owned(before, base) :: StampedData(before[n], stamp, pid))
            && NotOwned(restored, base) == NotOwned(now, base)
  {
    hide IsSnapshotFile, Contents;
    StampedContents(files, stamp, pid);
  }

  /** Whatever level the lock was last renamed for, every level file that the game has
      is among the owned ones. */
  lemma LevelsOwned(dir: Dir, file: Name, lev: nat, other: nat)
    requires SetLevelfileName(file, other) in dir
    ensures SetLevelfileName(file, other) in Owned(dir, LockBase(SetLevelfileName(file, lev)))
  {
    LockBaseInvertsRename(file, lev, other);
    hide SetLevelfileName, LockBase, IsLevelfile;
  }

  /** After a restore there are exactly the level files that there were at the snapshot,
      with their contents, whatever numbers are in their names; and so with bones,
      with those in the making, and with the three records. Nothing else has moved. */
  lemma RestoreLevels(before: Dir, now: Dir, base: Name, files: seq<File>, pid: seq<Byte>)
    requires Contents(files) == Owned(before, base)
    ensures var restored := NotOwned(now, base) + Contents(Stamped(files, false, pid));
            && (forall d: Name | d != [] && AllDigits(d) :: SameFile(restored, before, base + [DOT] + d))
            && (forall s: Name :: SameFile(restored, before, Ascii("bon") + s))
            && SameFile(restored, before, base + Ascii(".bn"))
            && SameFile(restored, before, RECORD)
            && SameFile(restored, before, Ascii("logfile")) && SameFile(restored, before, Ascii("xlogfile"))
            && forall n | !IsSnapshotFile(n, base) :: SameFile(restored, now, n)
  {
    var restored := NotOwned(now, base) + Contents(Stamped(files, false, pid));
    forall d: Name | d != [] && AllDigits(d) ensures IsSnapshotFile(base + [DOT] + d, base) {
      SnapshotFileExact(base + [DOT] + d, base);
    }
    forall s: Name ensures IsSnapshotFile(Ascii("bon") + s, base) {
    }
    assert IsSnapshotFile(base + Ascii(".bn"), base) && IsSnapshotFile(RECORD, base);
    assert IsSnapshotFile(Ascii("logfile"), base) && IsSnapshotFile(Ascii("xlogfile"), base);
    hide *;
    forall n ensures SameFile(restored, if IsSnapshotFile(n, base) then before else now, n) {
      RestoreFile(before, now, base, files, pid, n);
    }
  }

  lemma RestoreFile(before: Dir, now: Dir, base: Name, files: seq<File>, pid: seq<Byte>, n: Name)
    requires Contents(files) == Owned(before, base)
    ensures var restored := NotOwned(now, base) + Contents(Stamped(files, false, pid));
            SameFile(restored, if IsSnapshotFile(n, base) then before else now, n)
  {
    hide IsSnapshotFile, Contents;
    StampedContents(files, false, pid);
  }

  // ---- the blob ----

  /** `v` in `n` bytes, low byte first. */
  function Le(n: nat, v: nat): (s: seq<Byte>)
    ensures |s| == n
  {
    if n == 0 then [] else [v % 256] + Le(n - 1, v / 256)
  }

  function UnLe(s: seq<Byte>): nat { if s == [] then 0 else s[0] + 256 * UnLe(s[1..]) }

  function Pow256(n: nat): nat { if n == 0 then 1 else 256 * Pow256(n - 1) }

  lemma {:induction false} UnLeLe(n: nat, v: nat)
    requires v < Pow256(n)
    ensures UnLe(Le(n, v)) == v
    decreases n
  {
    if n > 0 {
      UnLeLe(n - 1, v / 256);
      assert Le(n, v)[1..] == Le(n - 1, v / 256);
    }
  }

  const MAGIC: seq<Byte> := Ascii("NLELVLF1")

  function EncodeFile(f: File): seq<Byte> { Le(4, |f.name|) + f.name + Le(8, |f.data|) + f.data }

  function EncodeFiles(files: seq<File>): seq<Byte> {
    if files == [] then [] else EncodeFile(files[0]) + EncodeFiles(files[1..])
  }

  function Encode(files: seq<File>): seq<Byte> { MAGIC + Le(4, |files|) + EncodeFiles(files) }

  /** Everything a blob can be made of. */
  predicate Encodable(files: seq<File>) {
    |files| < Pow256(4) && Fit(files)
  }

  predicate Fit(files: seq<File>) {
    forall i | 0 <= i < |files| :: |files[i].name| < NAME_MAX && |files[i].data| < Pow256(8)
  }

  /** Everything a blob can carry: what a bundle holds does. */
  predicate Portable(files: seq<File>) {
    && |files| < Pow256(4)
    && forall i | 0 <= i < |files| ::
         |files[i].name| < NAME_MAX && 0 !in files[i].name && |files[i].data| < Pow256(8)
  }

  /** A name as the loader keeps it: a C string ends at the first NUL. */
  function CString(s: seq<Byte>): (r: Name)
    ensures 0 !in r && r <= s && (|r| < |s| ==> s[|r|] == 0)
  {
    if s == [] || s[0] == 0 then [] else [s[0]] + CString(s[1..])
  }

  datatype Parsed<T> = Bad(rc: nat) | Good(value: T, rest: seq<Byte>)

  function ParseFile(s: seq<Byte>): Parsed<File> {
    if |s| < 4 then Bad(4)
    else
      var nl := UnLe(s[..4]);
      if nl >= NAME_MAX || |s| - 4 < nl + 8 then Bad(4)
      else
        var sz := UnLe(s[4 + nl..4 + nl + 8]);
        if |s| - (4 + nl + 8) < sz then Bad(4)
        else Good(File(CString(s[4..4 + nl]), s[4 + nl + 8..4 + nl + 8 + sz]), s[4 + nl + 8 + sz..])
  }

  function ParseFiles(s: seq<Byte>, count: nat): Parsed<seq<File>> {
    if count == 0 then Good([], s)
    else
      match ParseFile(s)
      case Bad(rc) => Bad(rc)
      case Good(f, rest) => Prepend([f], ParseFiles(rest, count - 1))
  }

  function Prepend(fs: seq<File>, r: Parsed<seq<File>>): Parsed<seq<File>> {
    match r
    case Bad(rc) => Bad(rc)
    case Good(value, rest) => Good(fs + value, rest)
  }

  /** How the loader reads a blob. What follows the last file is ignored. */
  function Parse(blob: seq<Byte>): Parsed<seq<File>> {
    if |blob| < 12 then Bad(1)
    else if blob[..8] != MAGIC then Bad(2)
    else ParseFiles(blob[12..], UnLe(blob[8..12]))
  }

  lemma {:induction false} CStringWhole(s: seq<Byte>)
    requires 0 !in s
    ensures CString(s) == s
  {
    if s != [] {
      CStringWhole(s[1..]);
    }
  }

  lemma ParseOneFile(f: File, rest: seq<Byte>)
    requires |f.name| < NAME_MAX && |f.data| < Pow256(8)
    ensures ParseFile(EncodeFile(f) + rest) == Good(AsRead(f), rest)
  {
    var s, nl := EncodeFile(f) + rest, |f.name|;
    assert Pow256(4) == 256 * 256 * 256 * 256;
    UnLeLe(4, nl);
    UnLeLe(8, |f.data|);
    Parts(Le(4, nl), f.name, Le(8, |f.data|), f.data, rest);
  }

  /** The five parts of a sequence, by where they begin. */
  lemma Parts(a: seq<Byte>, b: seq<Byte>, c: seq<Byte>, d: seq<Byte>, e: seq<Byte>)
    ensures var s, k := a + b + c + d + e, |a| + |b| + |c|;
            && s[..|a|] == a && s[|a|..|a| + |b|] == b && s[|a| + |b|..k] == c
            && s[k..k + |d|] == d && s[k + |d|..] == e
  {
    assert a + b + c + d + e == a + (b + (c + (d + e)));
  }

  lemma ParseNext(f: File, tail: seq<Byte>, count: nat)
    requires |f.name| < NAME_MAX && |f.data| < Pow256(8) && count > 0
    ensures ParseFiles(EncodeFile(f) + tail, count) == Prepend([AsRead(f)], ParseFiles(tail, count - 1))
  {
    hide ParseFile, EncodeFile, Pow256, AsRead;
    ParseOneFile(f, tail);
  }

  /** The files as the loader keeps them. */
  function AllAsRead(files: seq<File>): (r: seq<File>)
    ensures |r| == |files| && forall i | 0 <= i < |r| :: r[i] == AsRead(files[i])
  {
    if files == [] then [] else [AsRead(files[0])] + AllAsRead(files[1..])
  }

  function AsRead(f: File): File { File(CString(f.name), f.data) }

  /** A blob carries exactly those files that are read back as they are. */
  lemma PortableExact(files: seq<File>)
    ensures Portable(files) <==> Encodable(files) && AllAsRead(files) == files
  {
    if Portable(files) {
      PortableAsRead(files);
    }
    if Encodable(files) && AllAsRead(files) == files {
      forall i | 0 <= i < |files| ensures 0 !in files[i].name {
        assert AllAsRead(files)[i] == AsRead(files[i]);
      }
    }
  }

  lemma PortableAsRead(files: seq<File>)
    requires Portable(files)
    ensures Encodable(files) && AllAsRead(files) == files
  {
    forall i | 0 <= i < |files| ensures AsRead(files[i]) == files[i] {
      CStringWhole(files[i].name);
    }
  }

  lemma {:induction false} ParseAllFiles(files: seq<File>, rest: seq<Byte>)
    requires Encodable(files)
    ensures ParseFiles(EncodeFiles(files) + rest, |files|) == Good(AllAsRead(files), rest)
  {
    if files == [] {
      assert EncodeFiles(files) + rest == rest;
    } else {
      hide ParseFile, EncodeFile, Pow256, ParseFiles, AsRead;
      var tail := EncodeFiles(files[1..]) + rest;
      assert EncodeFiles(files) + rest == EncodeFile(files[0]) + tail;
      ParseNext(files[0], tail, |files|);
      ParseAllFiles(files[1..], rest);
      assert [AsRead(files[0])] + AllAsRead(files[1..]) == AllAsRead(files);
    }
  }

  lemma BlobParts(files: seq<File>, tail: seq<Byte>)
    requires |files| < Pow256(4)
    ensures var blob := MAGIC + Le(4, |files|) + tail;
            |blob| == 12 + |tail| && blob[..8] == MAGIC && UnLe(blob[8..12]) == |files| && blob[12..] == tail
  {
    var blob := MAGIC + Le(4, |files|) + tail;
    UnLeLe(4, |files|);
    assert blob[8..12] == Le(4, |files|);
  }

  /** Loading a blob gives back the files that were put in it, also when bytes
      follow it. */
  lemma BlobRoundTrip(files: seq<File>, junk: seq<Byte>)
    requires Portable(files)
    ensures Parse(Encode(files) + junk) == Good(files, junk)
  {
    PortableAsRead(files);
    EncodedParses(files, junk);
  }

  lemma {:induction false} LeUnLe(s: seq<Byte>)
    ensures UnLe(s) < Pow256(|s|) && Le(|s|, UnLe(s)) == s
  {
    if s != [] {
      LeUnLe(s[1..]);
      var v := UnLe(s);
      assert v % 256 == s[0] && v / 256 == UnLe(s[1..]);
    }
  }

  /** What the loader takes one file from is the encoding of a file. */
  lemma ParsedFile(s: seq<Byte>) returns (f: File)
    requires ParseFile(s).Good?
    ensures |f.name| < NAME_MAX && |f.data| < Pow256(8)
    ensures s == EncodeFile(f) + ParseFile(s).rest && ParseFile(s).value == AsRead(f)
  {
    var nl := UnLe(s[..4]);
    var at := 4 + nl + 8;
    var sz := UnLe(s[4 + nl..at]);
    f := File(s[4..4 + nl], s[at..at + sz]);
    LeUnLe(s[..4]);
    LeUnLe(s[4 + nl..at]);
    hide UnLe, Le, Pow256, CString;
    Reassemble(s, 4, 4 + nl, at, at + sz);
  }

  lemma Reassemble(s: seq<Byte>, i: nat, j: nat, k: nat, l: nat)
    requires i <= j <= k <= l <= |s|
    ensures s == s[..i] + s[i..j] + s[j..k] + s[k..l] + s[l..]
  {
    assert s[..i] + s[i..j] == s[..j] && s[..j] + s[j..k] == s[..k] && s[..k] + s[k..l] == s[..l];
  }

  lemma Join3(a: seq<Byte>, b: seq<Byte>, c: seq<Byte>)
    ensures a + (b + c) == a + b + c
  {
  }

  /** The parser's step, and the encoder's. */
  lemma ParseStep(s: seq<Byte>, count: nat, f: File, more: seq<File>)
    requires count > 0 && ParseFiles(s, count).Good?
    ensures ParseFile(s).Good? && ParseFiles(ParseFile(s).rest, count - 1).Good?
    ensures ParseFiles(s, count).value == [ParseFile(s).value] + ParseFiles(ParseFile(s).rest, count - 1).value
    ensures ParseFiles(s, count).rest == ParseFiles(ParseFile(s).rest, count - 1).rest
    ensures EncodeFiles([f] + more) == EncodeFile(f) + EncodeFiles(more)
    ensures AllAsRead([f] + more) == [AsRead(f)] + AllAsRead(more)
  {
    hide ParseFile, EncodeFile, AsRead;
    assert ([f] + more)[1..] == more;
  }

  lemma {:induction false} ParsedFiles(s: seq<Byte>, count: nat) returns (files: seq<File>)
    requires ParseFiles(s, count).Good?
    ensures |files| == count && Fit(files)
    ensures s == EncodeFiles(files) + ParseFiles(s, count).rest && ParseFiles(s, count).value == AllAsRead(files)
    decreases count
  {
    hide ParseFile, ParseFiles, EncodeFile, EncodeFiles, Pow256, AsRead, AllAsRead, Fit;
    files := [];
    if count == 0 {
      NoFiles(s);
    } else {
      ParseStep(s, count, File([], []), []);
      var f := ParsedFile(s);
      var more := ParsedFiles(ParseFile(s).rest, count - 1);
      files := [f] + more;
      ParseStep(s, count, f, more);
      FitMore(f, more);
      Join3(EncodeFile(f), EncodeFiles(more), ParseFiles(s, count).rest);
    }
  }

  lemma NoFiles(s: seq<Byte>)
    ensures Fit([]) && s == EncodeFiles([]) + ParseFiles(s, 0).rest && ParseFiles(s, 0).value == AllAsRead([])
  {
  }

  lemma FitMore(f: File, more: seq<File>)
    requires |f.name| < NAME_MAX && |f.data| < Pow256(8) && Fit(more)
    ensures Fit([f] + more)
  {
    hide Pow256;
  }

  /** The loader accepts exactly the encodings, of any files with names below 64 bytes,
      with anything behind; what it keeps of a name ends at the first NUL. */
  lemma ParseExact(blob: seq<Byte>, value: seq<File>, rest: seq<Byte>)
    ensures Parse(blob) == Good(value, rest) <==>
              exists files :: Encodable(files) && blob == Encode(files) + rest && value == AllAsRead(files)
  {
    hide *;
    if files :| Encodable(files) && blob == Encode(files) + rest && value == AllAsRead(files) {
      EncodedParses(files, rest);
    }
    if Parse(blob) == Good(value, rest) {
      var files := ParsedEncodes(blob);
      assert Encodable(files) && blob == Encode(files) + rest && value == AllAsRead(files);
    }
  }

  lemma EncodedParses(files: seq<File>, rest: seq<Byte>)
    requires Encodable(files)
    ensures Parse(Encode(files) + rest) == Good(AllAsRead(files), rest)
  {
    hide ParseFiles, EncodeFiles, AllAsRead, UnLe, Le;
    Join3(MAGIC + Le(4, |files|), EncodeFiles(files), rest);
    BlobParts(files, EncodeFiles(files) + rest);
    ParseAllFiles(files, rest);
  }

  lemma ParsedEncodes(blob: seq<Byte>) returns (files: seq<File>)
    requires Parse(blob).Good?
    ensures Encodable(files) && blob == Encode(files) + Parse(blob).rest && Parse(blob).value == AllAsRead(files)
  {
    var count, rest := UnLe(blob[8..12]), Parse(blob).rest;
    assert |blob| >= 12 && blob[..8] == MAGIC && ParseFiles(blob[12..], count) == Parse(blob);
    LeUnLe(blob[8..12]);
    hide ParseFiles, Parse, EncodeFiles, Pow256, AllAsRead, UnLe, Le, MAGIC, Fit;
    files := ParsedFiles(blob[12..], count);
    assert blob == blob[..8] + blob[8..12] + blob[12..];
    Join3(MAGIC + Le(4, count), EncodeFiles(files), rest);
  }

  lemma CutSlice(a: seq<Byte>, b: seq<Byte>, c: seq<Byte>, d: seq<Byte>, k: nat)
    requires |a| + |b| + |c| <= k <= |a| + |b| + |c| + |d|
    ensures (a + b + c + d)[..k][|a| + |b|..|a| + |b| + |c|] == c
  {
    assert a + b + c + d == (a + b) + (c + d);
  }

  lemma CutFile(f: File, k: nat)
    requires |f.name| < NAME_MAX && |f.data| < Pow256(8) && k < |EncodeFile(f)|
    ensures ParseFile(EncodeFile(f)[..k]) == Bad(4)
  {
    var s, nl := EncodeFile(f)[..k], |f.name|;
    assert Pow256(4) == 256 * 256 * 256 * 256;
    if k >= 4 {
      UnLeLe(4, nl);
      assert s[..4] == Le(4, nl);
      if k >= 4 + nl + 8 {
        UnLeLe(8, |f.data|);
        CutSlice(Le(4, nl), f.name, Le(8, |f.data|), f.data, k);
        assert s[4 + nl..4 + nl + 8] == Le(8, |f.data|);
      }
    }
  }

  lemma CutNext(f: File, k: nat, count: nat)
    requires |f.name| < NAME_MAX && |f.data| < Pow256(8) && k < |EncodeFile(f)| && count > 0
    ensures ParseFiles(EncodeFile(f)[..k], count) == Bad(4)
  {
    hide ParseFile, EncodeFile, Pow256;
    CutFile(f, k);
  }

  lemma {:induction false} CutFiles(files: seq<File>, k: nat)
    requires Portable(files) && k < |EncodeFiles(files)|
    ensures ParseFiles(EncodeFiles(files)[..k], |files|) == Bad(4)
  {
    hide ParseFile, EncodeFile, Pow256, ParseFiles;
    var first := EncodeFile(files[0]);
    var s := EncodeFiles(files)[..k];
    if k < |first| {
      assert s == first[..k];
      CutNext(files[0], k, |files|);
    } else {
      var tail := EncodeFiles(files[1..])[..k - |first|];
      assert s == first + tail;
      ParseNext(files[0], tail, |files|);
      CutFiles(files[1..], k - |first|);
    }
  }

  /** Every blob that was cut short is rejected: nothing of it is installed. */
  lemma CutBlobRejected(files: seq<File>, k: nat)
    requires Portable(files) && k < |Encode(files)|
    ensures Parse(Encode(files)[..k]) == Bad(if k < 12 then 1 else 4)
  {
    if k >= 12 {
      var tail := EncodeFiles(files)[..k - 12];
      assert Encode(files)[..k] == MAGIC + Le(4, |files|) + tail;
      BlobParts(files, tail);
      CutFiles(files, k - 12);
    }
  }

  /** Of the files in `sent`, those that the lock with this base does not own are
      in the directory already. */
  predicate AddsNothing(sent: Dir, now: Dir, base: Name) {
    forall n | n in sent && !IsSnapshotFile(n, base) :: n in now && now[n] == sent[n]
  }

  /** What installing `sent` in the directory does to the files that the lock with
      this base does not own. */
  lemma InstallHere(now: Dir, base: Name, sent: Dir)
    ensures var installed := NotOwned(now, base) + sent;
            && Owned(installed, base) == Owned(sent, base)
            && (NotOwned(installed, base) == NotOwned(now, base) <==> AddsNothing(sent, now, base))
  {
    hide IsSnapshotFile;
    var installed := NotOwned(now, base) + sent;
    if NotOwned(installed, base) == NotOwned(now, base) {
      forall n | n in sent && !IsSnapshotFile(n, base) ensures n in now && now[n] == sent[n] {
        assert n in NotOwned(installed, base);
        assert n in NotOwned(now, base) && NotOwned(now, base)[n] == sent[n];
      }
    }
  }

  /** The whole disk but the files that the lock with this base owns. */
  function Elsewhere(fs: Disk, at: Path, base: Name): Disk
    requires at in fs
  {
    fs[at := NotOwned(fs[at], base)]
  }

  predicate OwnedPlace(w: Place, at: Path, base: Name) { w.Place? && w.dir == at && IsSnapshotFile(w.name, base) }

  lemma ElsewhereSame(d: Disk, fs: Disk, at: Path, base: Name)
    requires at in fs && d.Keys == fs.Keys
    ensures Elsewhere(d, at, base) == Elsewhere(fs, at, base) <==>
              forall w: Place | w.Place? && !OwnedPlace(w, at, base) :: Look(d, w) == Look(fs, w)
  {
    hide IsSnapshotFile;
    var a, b := Elsewhere(d, at, base), Elsewhere(fs, at, base);
    if a == b {
      forall w: Place | w.Place? && !OwnedPlace(w, at, base) ensures Look(d, w) == Look(fs, w) {
        assert Look(a, w) == Look(b, w);
        assert Look(d, w) == Look(a, w) && Look(fs, w) == Look(b, w);
      }
    } else {
      var q :| q in fs && a[q] != b[q];
      if forall w: Place | w.Place? && !OwnedPlace(w, at, base) :: Look(d, w) == Look(fs, w) {
        forall n ensures SameFile(a[q], b[q], n) {
          assert OwnedPlace(Place(q, n), at, base) || Look(d, Place(q, n)) == Look(fs, Place(q, n));
        }
        SameFilesSame(a[q], b[q]);
      }
    }
  }

  /** Installing the files of any blob, with any names: the loader takes its base from
      its own lock and does not ask whether that owns what the blob names, nor where a
      name leads. The rest of the disk stays as it is exactly if every place that a
      name leads to is owned or holds already what the blob puts there. */
  lemma InstallExact(fs: Disk, at: Path, files: seq<File>, base: Name, stamp: bool, pid: seq<Byte>, io: Io)
    requires at in fs && Restored(fs, at, files, base, stamp, pid, io).1
    ensures var r, landed := Restored(fs, at, files, base, stamp, pid, io).0, Landed(fs, at, files, stamp, pid);
            && r.Keys == fs.Keys
            && (Elsewhere(r, at, base) == Elsewhere(fs, at, base) <==>
                  forall w | w in landed && !OwnedPlace(w, at, base) :: Look(fs, w) == Present(landed[w]))
  {
    var d, landed := Written(fs, at, files, stamp, pid, io.fate).0, Landed(fs, at, files, stamp, pid);
    hide Written, Landed, Restored, Elsewhere, Look, OwnedPlace;
    WrittenKeys(fs, at, files, stamp, pid, io.fate);
    RemovesOwned(fs, at, files, base, stamp, pid, io);
    ElsewhereSame(d, fs, at, base);
    forall w ensures w !in landed ==> Look(d, w) == Look(fs, w)
             ensures w in landed ==> w.Place? && Look(d, w) == Present(landed[w]) {
      WrittenLands(fs, at, files, stamp, pid, io.fate, w);
      LandedWhere(fs, at, files, stamp, pid, w);
    }
  }

  /** What goes well has been written, and only owned files are then removed. */
  lemma RemovesOwned(fs: Disk, at: Path, files: seq<File>, base: Name, stamp: bool, pid: seq<Byte>, io: Io)
    requires at in fs && Restored(fs, at, files, base, stamp, pid, io).1
    ensures var (d, ok) := Written(fs, at, files, stamp, pid, io.fate);
            var r := Restored(fs, at, files, base, stamp, pid, io).0;
            ok && at in d && r.Keys == d.Keys && Elsewhere(r, at, base) == Elsewhere(d, at, base)
  {
    var d := Written(fs, at, files, stamp, pid, io.fate).0;
    WrittenKeys(fs, at, files, stamp, pid, io.fate);
    hide IsSnapshotFile, Contents, Written;
    assert NotOwned(NotStale(d[at], files, base, io.stuck), base) == NotOwned(d[at], base);
  }

  /** If the directory cannot be listed nothing is removed, and that is a failure. */
  lemma UnlistedKeepsAll(fs: Disk, at: Path, files: seq<File>, base: Name, stamp: bool, pid: seq<Byte>, io: Io, w: Place)
    requires at in fs && !io.listed
    ensures var (r, ok) := Restored(fs, at, files, base, stamp, pid, io);
            !ok && (Look(Written(fs, at, files, stamp, pid, io.fate).0, w).Present? ==> Look(r, w).Present?)
  {
  }

  const FINE: Io := Io((i: nat) => Fine, true, {}, {}) // nothing fails

  /** A blob with one file, of a name that leads to `w`. */
  lemma OneInstalled(fs: Disk, at: Path, f: File, base: Name, pid: seq<Byte>, w: Place)
    requires at in fs && Where(fs, at, f.name) == w && w.Place? && w.dir in fs
    ensures var (r, ok) := Restored(fs, at, [f], base, true, pid, FINE);
            && ok && w.dir in r && at in r
            && (w.dir != at || w.name == f.name || !IsSnapshotFile(w.name, base) ==>
                  w.name in r[w.dir] && r[w.dir][w.name] == StampedData(f.data, true, pid))
            && (w.dir == at && w.name != f.name && IsSnapshotFile(w.name, base) ==> w.name !in r[at])
  {
    hide IsSnapshotFile, Where;
    assert [f][..0] == [];
    assert Contents([f]) == map[f.name := f.data];
    assert Written(fs, at, [f], true, pid, FINE.fate) == (Put(fs, w, StampedData(f.data, true, pid)), true);
  }

  /** "./n" is written to n, which is no name of the blob: if no lock owns n, like the
      lock file itself, it is overwritten all the same; if the lock does own n, like
      the record, it is written and then removed, and the loader says all went well. */
  lemma DotSlashName(fs: Disk, at: Path, n: Name, data: seq<Byte>, base: Name, pid: seq<Byte>)
    requires at in fs && Plain(n)
    ensures var name := [DOT, SLASH] + n;
            var (r, ok) := Restored(fs, at, [File(name, data)], base, true, pid, FINE);
            && !Plain(name) && name != n && Where(fs, at, name) == Place(at, n) && ok && at in r
            && if IsSnapshotFile(n, base) then n !in r[at] else n in r[at] && r[at][n] == StampedData(data, true, pid)
  {
    var name := [DOT, SLASH] + n;
    assert name == [DOT] + [SLASH] + n;
    SplitAt([DOT], n);
    PlainWhere(fs, at, n);
    assert Split(name)[1..] == Split(n);
    OneInstalled(fs, at, File(name, data), base, pid, Place(at, n));
  }

  /** "../b/n" is written into the directory b beside this one, another environment's
      perhaps. */
  lemma DotDotName(fs: Disk, parent: Path, a: Name, b: Name, n: Name, data: seq<Byte>, base: Name, pid: seq<Byte>)
    requires a != b && Plain(b) && Plain(n) && parent in fs && parent + [a] in fs && parent + [b] in fs
    ensures var at, other, name := parent + [a], parent + [b], [DOT, DOT, SLASH] + b + [SLASH] + n;
            var (r, ok) := Restored(fs, at, [File(name, data)], base, true, pid, FINE);
            && !Plain(name) && ok && other in r
            && n in r[other] && r[other][n] == StampedData(data, true, pid)
  {
    var at, other, tail := parent + [a], parent + [b], b + [SLASH] + n;
    var name := [DOT, DOT, SLASH] + b + [SLASH] + n;
    assert name == [DOT, DOT] + [SLASH] + tail;
    SplitAt([DOT, DOT], tail);
    SplitAt(b, n);
    SplitPlain(n);
    assert Split(name) == [[DOT, DOT], b, n];
    assert at[..|at| - 1] == parent;
    assert Reach(fs, parent, [b, n]) == Place(other, n) by {
      assert [b, n][1..] == [n];
    }
    assert [[DOT, DOT], b, n][1..] == [b, n];
    assert other[|parent|] == b && at[|parent|] == a;
    assert name[2] == SLASH;
    OneInstalled(fs, at, File(name, data), base, pid, Place(other, n));
  }

  /** No lock owns the file that is the lock. */
  lemma LockNotOwned(base: Name)
    ensures !IsSnapshotFile(Ascii("perm"), base)
  {
    var perm: Name := [112, 101, 114, 109];
    assert Ascii("perm") == perm && DOT !in perm;
    assert perm[0] != Ascii("bon")[0] && Ascii(".bn")[0] == DOT;
    assert perm[0] != Ascii("record")[0] && perm[0] != Ascii("logfile")[0] && perm[0] != Ascii("xlogfile")[0];
    assert (base + Ascii(".bn"))[|base|] == DOT;
    assert forall k | 0 <= k < |perm| :: perm[k] != DOT;
  }

  /** A blob that names that file overwrites it. */
  lemma InstallOverwritesLock(now: Dir, base: Name, data: seq<Byte>, pid: seq<Byte>)
    ensures var perm, files := Ascii("perm"), [File(Ascii("perm"), data)];
            var left := NotOwned(NotOwned(now, base) + Contents(Stamped(files, true, pid)), base);
            perm in left && left[perm] == StampedData(data, true, pid)
  {
    var files := [File(Ascii("perm"), data)];
    LockNotOwned(base);
    hide IsSnapshotFile;
    StampedContents(files, true, pid);
    assert files[..0] == [];
    assert Contents(files) == map[Ascii("perm") := data];
  }

  /** What a checkpoint of the files that `base` owns brings with it. */
  function Arriving(before: Dir, base: Name, pid: seq<Byte>): Dir {
    map n | n in Owned(before, base) :: StampedData(before[n], true, pid)
  }

  lemma ArrivingContents(before: Dir, base: Name, files: seq<File>, pid: seq<Byte>)
    requires Contents(files) == Owned(before, base)
    ensures Contents(Stamped(files, true, pid)) == Arriving(before, base, pid)
  {
    hide IsSnapshotFile, Contents, Stamped;
    StampedContents(files, true, pid);
  }

  /** A checkpoint on disk: bundle, encode, load in another process, whose lock may
      have another base, and install. What of it the new lock owns is then exactly
      what that lock owns; the files that it does not own are left alone exactly if
      the checkpoint adds nothing to them, and with the old base they are. */
  lemma CheckpointExact(before: Dir, now: Dir, base: Name, base': Name, files: seq<File>, pid: seq<Byte>)
    requires Contents(files) == Owned(before, base) && Portable(files)
    ensures Parse(Encode(files)) == Good(files, [])
    ensures var installed := NotOwned(now, base') + Contents(Stamped(Parse(Encode(files)).value, true, pid));
            && Owned(installed, base') == Owned(Arriving(before, base, pid), base')
            && (NotOwned(installed, base') == NotOwned(now, base') <==> AddsNothing(Arriving(before, base, pid), now, base'))
            && (base' == base ==> Owned(installed, base') == Arriving(before, base, pid)
                                  && NotOwned(installed, base') == NotOwned(now, base'))
  {
    hide IsSnapshotFile, Contents, Stamped, Parse, Encode, Portable, StampedData;
    BlobRoundTrip(files, []);
    assert Encode(files) + [] == Encode(files);
    ArrivingContents(before, base, files, pid);
    InstallHere(now, base', Arriving(before, base, pid));
    assert Owned(Arriving(before, base, pid), base) == Arriving(before, base, pid);
    assert AddsNothing(Arriving(before, base, pid), now, base);
  }

  lemma EncodeNext(blob: seq<Byte>, files: seq<File>, i: nat)
    requires i < |files|
    ensures blob + EncodeFiles(files[i..])
         == blob + Le(4, |files[i].name|) + files[i].name + Le(8, |files[i].data|) + files[i].data
          + EncodeFiles(files[i + 1..])
  {
    assert files[i..][0] == files[i] && files[i..][1..] == files[i + 1..];
    var f, tail := files[i], EncodeFiles(files[i + 1..]);
    assert EncodeFiles(files[i..]) == EncodeFile(f) + tail;
    Regroup(blob, Le(4, |f.name|), f.name, Le(8, |f.data|), f.data, tail);
  }

  lemma Regroup(s: seq<Byte>, a: seq<Byte>, b: seq<Byte>, c: seq<Byte>, d: seq<Byte>, t: seq<Byte>)
    ensures s + (a + b + c + d + t) == s + a + b + c + d + t
  {
  }

  /** nle_fr_levelfiles_blob, once the files are bundled. */
  method LevelfilesBlob(files: seq<File>) returns (blob: seq<Byte>)
    ensures blob == Encode(files)
  {
    blob := MAGIC + Le(4, |files|);
    var i := 0;
    while i < |files|
      invariant i <= |files|
      invariant blob + EncodeFiles(files[i..]) == Encode(files)
    {
      hide *;
      EncodeNext(blob, files, i);
      blob := blob + Le(4, |files[i].name|) + files[i].name + Le(8, |files[i].data|) + files[i].data;
      i := i + 1;
    }
  }

  /** One turn of the loader's loop, at position `p` of the blob. */
  method LoadFile(blob: seq<Byte>, p: nat) returns (ok: bool, f: File, q: nat)
    requires p <= |blob|
    ensures q <= |blob|
    ensures ParseFile(blob[p..]) == if ok then Good(f, blob[q..]) else Bad(4)
  {
    ghost var s := blob[p..];
    f, q, ok := File([], []), p, false;
    if |blob| - p < 4 {
      return;
    }
    var nl := UnLe(blob[p..p + 4]);
    assert s[..4] == blob[p..p + 4];
    if nl >= NAME_MAX || |blob| - p - 4 < nl + 8 {
      return;
    }
    var at := p + 4 + nl + 8;
    var sz := UnLe(blob[at - 8..at]);
    assert s[4 + nl..4 + nl + 8] == blob[at - 8..at];
    if |blob| - at < sz {
      return;
    }
    assert s[4..4 + nl] == blob[p + 4..p + 4 + nl];
    assert s[4 + nl + 8..4 + nl + 8 + sz] == blob[at..at + sz];
    assert s[4 + nl + 8 + sz..] == blob[at + sz..];
    return true, File(CString(blob[p + 4..p + 4 + nl]), blob[at..at + sz]), at + sz;
  }

  /** nle_fr_levelfiles_load up to the point where the files are installed. */
  method LevelfilesLoad(blob: seq<Byte>, room: nat) returns (rc: nat, files: seq<File>)
    ensures if |blob| >= 12 && blob[..8] == MAGIC && UnLe(blob[8..12]) > room then rc == 3 && files == []
            else if Parse(blob).Bad? then rc == Parse(blob).rc && files == []
            else rc == 0 && files == Parse(blob).value
    ensures rc <= 4
    ensures Parse(blob) == Bad(1) <==> |blob| < 12
    ensures Parse(blob) == Bad(2) <==> |blob| >= 12 && blob[..8] != MAGIC
    ensures Parse(blob).Bad? ==> Parse(blob).rc in {1, 2, 4}
  {
    BadCodes(blob);
    hide ParseFile, UnLe, CString;
    if |blob| < 12 {
      return 1, [];
    }
    if blob[..8] != MAGIC {
      return 2, [];
    }
    files := [];
    var count := UnLe(blob[8..12]);
    if count > room {
      return 3, [];
    }
    var p, i := 12, 0;
    PrependNothing(ParseFiles(blob[12..], count));
    while i < count
      invariant p <= |blob| && i <= count
      invariant ParseFiles(blob[12..], count) == Prepend(files, ParseFiles(blob[p..], count - i))
    {
      var ok, f, q := LoadFile(blob, p);
      if !ok {
        return 4, [];
      }
      PrependSnoc(files, f, ParseFiles(blob[q..], count - i - 1));
      files, p, i := files + [f], q, i + 1;
    }
    assert files + [] == files;
    rc := 0;
  }

  /** Past its header a blob is only ever rejected with 4. */
  lemma BadCodes(blob: seq<Byte>)
    ensures Parse(blob) == Bad(1) <==> |blob| < 12
    ensures Parse(blob) == Bad(2) <==> |blob| >= 12 && blob[..8] != MAGIC
    ensures Parse(blob).Bad? ==> Parse(blob).rc in {1, 2, 4}
  {
    if |blob| >= 12 {
      ParseFilesBad(blob[12..], UnLe(blob[8..12]));
    }
  }

  lemma {:induction false} ParseFilesBad(s: seq<Byte>, count: nat)
    ensures ParseFiles(s, count).Bad? ==> ParseFiles(s, count).rc == 4
    decreases count
  {
    hide UnLe, CString;
    if count > 0 {
      var r := ParseFile(s);
      if r.Good? {
        ParseFilesBad(r.rest, count - 1);
      }
    }
  }

  lemma PrependNothing(r: Parsed<seq<File>>)
    ensures Prepend([], r) == r
  {
    if r.Good? {
      assert [] + r.value == r.value;
    }
  }

  lemma PrependSnoc(fs: seq<File>, f: File, r: Parsed<seq<File>>)
    ensures Prepend(fs, Prepend([f], r)) == Prepend(fs + [f], r)
  {
    if r.Good? {
      assert fs + ([f] + r.value) == (fs + [f]) + r.value;
    }
  }
}
