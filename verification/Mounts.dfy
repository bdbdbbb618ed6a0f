/**
 * Which mount points count towards the disk totals (agent/src/collect.rs).
 */
module Mounts {

  datatype Row = Row(dev: string, mount: string, fstype: string)

  // Pseudo file systems, remote storage included.
  const SKIP_FSTYPES: seq<string> := [
    "tmpfs", "devtmpfs", "proc", "sysfs", "cgroup", "cgroup2", "devpts", "mqueue", "hugetlbfs", "debugfs",
    "tracefs", "securityfs", "pstore", "bpf", "configfs", "fusectl", "binfmt_misc", "autofs", "squashfs",
    "ramfs", "efivarfs", "nsfs", "overlay", "ecryptfs", "fuse", "rpc_pipefs", "nfs", "nfs4", "cifs", "smb3",
    "ceph", "glusterfs", "9p"]

  // ------------------------------------------------------------ the table

  // The `White_Space` characters `split_whitespace` separates on.
  predicate IsSpace(c: char) {
    var u := c as int;
    || 9 <= u <= 13 || u == 32 || u == 0x85 || u == 0xA0 || u == 0x1680 || 0x2000 <= u <= 0x200A
    || u == 0x2028 || u == 0x2029 || u == 0x202F || u == 0x205F || u == 0x3000
  }

  predicate NoSpace(s: string) {
    forall c <- s :: !IsSpace(c)
  }

  function Word(s: string): (w: string)
    ensures w <= s && NoSpace(w)
    ensures |w| < |s| ==> IsSpace(s[|w|])
  {
    if s == [] || IsSpace(s[0]) then [] else [s[0]] + Word(s[1..])
  }

  function Fields(s: string): (fields: seq<string>)
    ensures forall f <- fields :: f != [] && NoSpace(f)
    decreases |s|
  {
    if s == [] then []
    else if IsSpace(s[0]) then Fields(s[1..])
    else [Word(s)] + Fields(s[|Word(s)|..])
  }

  function Line(s: string): (l: string)
    ensures l <= s && '\n' !in l
    ensures |l| < |s| ==> s[|l|] == '\n'
  {
    if s == [] || s[0] == '\n' then [] else [s[0]] + Line(s[1..])
  }

  function Lines(s: string): seq<string>
    decreases |s|
  {
    if s == [] then []
    else if |Line(s)| == |s| then [Line(s)]
    else [Line(s)] + Lines(s[|Line(s)| + 1..])
  }

  function RowsOf(lines: seq<string>): (rows: seq<Row>)
    ensures forall r <- rows :: NoSpace(r.dev) && NoSpace(r.mount) && NoSpace(r.fstype)
  {
    if lines == [] then []
    else
      var f := Fields(lines[0]);
      (if |f| >= 3 then [Row(f[0], f[1], f[2])] else []) + RowsOf(lines[1..])
  }

  function MountRows(text: string): seq<Row> {
    RowsOf(Lines(text))
  }

  // ------------------------------------------------------------ selection

  predicate Skip(pseudo: seq<string>, fstype: string) {
    exists s <- pseudo :: fstype == s || (s <= fstype && |fstype| > |s| && fstype[|s|] == '.')
  }

  function Until(s: string, stop: char): (t: string)
    ensures t <= s && stop !in t
    ensures |t| < |s| ==> s[|t|] == stop
  {
    if s == [] || s[0] == stop then [] else [s[0]] + Until(s[1..], stop)
  }

  lemma {:induction false} UntilIs(s: string, stop: char, t: string)
    requires t <= s && stop !in t && (|t| < |s| ==> s[|t|] == stop)
    ensures Until(s, stop) == t
  {
    if t != [] {
      assert t[0] in t;
      assert forall c <- t[1..] :: c in t;
      UntilIs(s[1..], stop, t[1..]);
    }
  }

  /** A type is skipped when what stands before its first dot is on the list. */
  lemma SkipByFlavour(pseudo: seq<string>, fstype: string)
    requires forall s <- pseudo :: '.' !in s
    ensures Skip(pseudo, fstype) <==> Until(fstype, '.') in pseudo
  {
    var base := Until(fstype, '.');
    assert |base| == |fstype| ==> base == fstype;
    if Skip(pseudo, fstype) {
      var s :| s in pseudo && (fstype == s || (s <= fstype && |fstype| > |s| && fstype[|s|] == '.'));
      UntilIs(fstype, '.', s);
    }
  }

  predicate Backed(r: Row) {
    (r.dev != [] && r.dev[0] == '/') || r.fstype == "zfs" || r.fstype == "btrfs"
  }

  /** What a device is counted under: a zfs dataset under its pool. */
  function Key(r: Row): string {
    if r.fstype == "zfs" then Until(r.dev, '/') else r.dev
  }

  predicate LastOnPath(rows: seq<Row>, i: nat)
    requires i < |rows|
  {
    forall j :: i < j < |rows| ==> rows[j].mount != rows[i].mount
  }

  predicate Counts(pseudo: seq<string>, rows: seq<Row>, i: nat)
    requires i < |rows|
  {
    LastOnPath(rows, i) && !Skip(pseudo, rows[i].fstype) && Backed(rows[i])
  }

  /** The first countable row of its key, among the rows a path resolves to. */
  predicate Emits(pseudo: seq<string>, rows: seq<Row>, i: nat)
    requires i < |rows|
  {
    && Counts(pseudo, rows, i)
    && forall j :: 0 <= j < i && Counts(pseudo, rows, j) ==> Key(rows[j]) != Key(rows[i])
  }

  function Chosen(pseudo: seq<string>, rows: seq<Row>, n: nat): (chosen: seq<nat>)
    requires n <= |rows|
    ensures forall a :: 0 <= a < |chosen| ==> chosen[a] < n
  {
    if n == 0 then []
    else Chosen(pseudo, rows, n - 1) + if Emits(pseudo, rows, n - 1) then [n - 1] else []
  }

  // `replace("\\040", " ")`.
  function Unescaped(s: string): string {
    if s == [] then []
    else if |s| >= 4 && s[0] == '\\' && s[1] == '0' && s[2] == '4' && s[3] == '0' then [' '] + Unescaped(s[4..])
    else [s[0]] + Unescaped(s[1..])
  }

  function Paths(rows: seq<Row>, chosen: seq<nat>): (paths: seq<string>)
    requires forall a :: 0 <= a < |chosen| ==> chosen[a] < |rows|
    ensures |paths| == |chosen|
    ensures forall n :: 0 <= n < |chosen| ==> paths[n] == Unescaped(rows[chosen[n]].mount)
  {
    if chosen == [] then []
    else Paths(rows, chosen[..|chosen| - 1]) + [Unescaped(rows[chosen[|chosen| - 1]].mount)]
  }

  /** The chosen rows are exactly those that emit, in the order of the table. */
  lemma {:induction false} ChosenExactly(pseudo: seq<string>, rows: seq<Row>, n: nat)
    requires n <= |rows|
    ensures forall k: nat :: k in Chosen(pseudo, rows, n) <==> k < n && Emits(pseudo, rows, k)
  {
    if n > 0 {
      ChosenExactly(pseudo, rows, n - 1);
    }
  }

  lemma {:induction false} ChosenInOrder(pseudo: seq<string>, rows: seq<Row>, n: nat)
    requires n <= |rows|
    ensures forall a, b :: 0 <= a < b < |Chosen(pseudo, rows, n)| ==>
      Chosen(pseudo, rows, n)[a] < Chosen(pseudo, rows, n)[b]
  {
    if n > 0 {
      ChosenInOrder(pseudo, rows, n - 1);
    }
  }

  function CountedKeys(pseudo: seq<string>, rows: seq<Row>, n: nat): set<string>
    requires n <= |rows|
  {
    if n == 0 then {}
    else CountedKeys(pseudo, rows, n - 1) + if Counts(pseudo, rows, n - 1) then {Key(rows[n - 1])} else {}
  }

  lemma {:induction false} CountedKeysExactly(pseudo: seq<string>, rows: seq<Row>, n: nat, key: string)
    requires n <= |rows|
    ensures key in CountedKeys(pseudo, rows, n) <==>
      exists j: nat :: j < n && Counts(pseudo, rows, j) && Key(rows[j]) == key
  {
    if n > 0 {
      CountedKeysExactly(pseudo, rows, n - 1, key);
      if Counts(pseudo, rows, n - 1) && Key(rows[n - 1]) == key {
        assert key in CountedKeys(pseudo, rows, n);
      }
    }
  }

  lemma EmitsWhenNew(pseudo: seq<string>, rows: seq<Row>, i: nat)
    requires i < |rows|
    ensures Emits(pseudo, rows, i) <==>
      Counts(pseudo, rows, i) && Key(rows[i]) !in CountedKeys(pseudo, rows, i)
  {
    CountedKeysExactly(pseudo, rows, i, Key(rows[i]));
  }

  predicate Covered(rows: seq<Row>, i: nat)
    requires i < |rows|
  {
    exists later <- rows[i + 1..] :: later.mount == rows[i].mount
  }

  lemma CoveredExactly(rows: seq<Row>, i: nat)
    requires i < |rows|
    ensures Covered(rows, i) <==> !LastOnPath(rows, i)
  {
    if !LastOnPath(rows, i) {
      var j :| i < j < |rows| && rows[j].mount == rows[i].mount;
      assert rows[j] == rows[i + 1..][j - i - 1];
    }
    if Covered(rows, i) {
      var later :| later in rows[i + 1..] && later.mount == rows[i].mount;
      var k :| 0 <= k < |rows[i + 1..]| && rows[i + 1..][k] == later;
      assert rows[i + 1 + k] == later;
    }
  }

  // The loop, over the rows of the table.
  method Select(pseudo: seq<string>, rows: seq<Row>) returns (out: seq<string>)
    ensures out == Paths(rows, Chosen(pseudo, rows, |rows|))
  {
    var seen: seq<string> := [];
    out := [];
    for i := 0 to |rows|
      invariant forall key :: key in seen <==> key in CountedKeys(pseudo, rows, i)
      invariant out == Paths(rows, Chosen(pseudo, rows, i))
    {
      EmitsWhenNew(pseudo, rows, i);
      CoveredExactly(rows, i);
      var row := rows[i];
      if Covered(rows, i) {
        continue;
      }
      if Skip(pseudo, row.fstype) {
        continue;
      }
      if !Backed(row) {
        continue;
      }
      var key := Key(row);
      if key in seen {
        continue;
      }
      seen := seen + [key];
      out := out + [Unescaped(row.mount)];
    }
  }

  method ParseMounts(text: string) returns (out: seq<string>)
    ensures var rows := MountRows(text);
            out == Paths(rows, Chosen(SKIP_FSTYPES, rows, |rows|))
  {
    out := Select(SKIP_FSTYPES, MountRows(text));
  }
}
