/**
 * What the mount selection guarantees for any table, and for the tables a kernel
 * prints: fields separated by a space, blanks and backslashes in them escaped.
 */
module MountTheorems {
  import opened Mounts

  // ------------------------------------------------------- any table at all

  function Respaced(s: string): string {
    if s == [] then [] else (if s[0] == ' ' then "\\040" else [s[0]]) + Respaced(s[1..])
  }

  lemma {:induction false} UnescapingLosesNothing(s: string)
    requires NoSpace(s)
    ensures Respaced(Unescaped(s)) == s
  {
    if s != [] {
      assert s[0] in s;
      if |s| >= 4 && s[0] == '\\' && s[1] == '0' && s[2] == '4' && s[3] == '0' {
        assert forall c <- s[4..] :: c in s;
        UnescapingLosesNothing(s[4..]);
        assert Unescaped(s)[1..] == Unescaped(s[4..]);
        assert s == "\\040" + s[4..];
      } else {
        assert forall c <- s[1..] :: c in s;
        UnescapingLosesNothing(s[1..]);
        assert Unescaped(s)[1..] == Unescaped(s[1..]);
      }
    }
  }

  /** No path is emitted twice. */
  lemma PathsAreDistinct(pseudo: seq<string>, text: string, a: nat, b: nat)
    requires var rows := MountRows(text); a < b < |Chosen(pseudo, rows, |rows|)|
    ensures var rows := MountRows(text);
            var out := Paths(rows, Chosen(pseudo, rows, |rows|));
            out[a] != out[b]
  {
    var rows := MountRows(text);
    var chosen := Chosen(pseudo, rows, |rows|);
    ChosenExactly(pseudo, rows, |rows|);
    ChosenInOrder(pseudo, rows, |rows|);
    var i, j := chosen[a], chosen[b];
    assert i in chosen && j in chosen;
    assert LastOnPath(rows, i);
    assert rows[i] in rows && rows[j] in rows;
    UnescapingLosesNothing(rows[i].mount);
    UnescapingLosesNothing(rows[j].mount);
  }

  /** No device or pool is counted twice. */
  lemma KeysAreDistinct(pseudo: seq<string>, rows: seq<Row>, a: nat, b: nat)
    requires a < b < |Chosen(pseudo, rows, |rows|)|
    ensures var chosen := Chosen(pseudo, rows, |rows|);
            Key(rows[chosen[a]]) != Key(rows[chosen[b]])
  {
    var chosen := Chosen(pseudo, rows, |rows|);
    ChosenExactly(pseudo, rows, |rows|);
    ChosenInOrder(pseudo, rows, |rows|);
    assert chosen[a] in chosen && chosen[b] in chosen;
    assert Emits(pseudo, rows, chosen[b]) && Counts(pseudo, rows, chosen[a]);
  }

  /** None is lost: whatever earlier rows were shadowed, every row that counts has
    * its device emitted, by the first row of it that counts. */
  lemma {:induction false} NoDeviceIsLost(pseudo: seq<string>, rows: seq<Row>, i: nat) returns (k: nat)
    requires i < |rows| && Counts(pseudo, rows, i)
    ensures k <= i && k in Chosen(pseudo, rows, |rows|) && Key(rows[k]) == Key(rows[i])
  {
    ChosenExactly(pseudo, rows, |rows|);
    if Emits(pseudo, rows, i) {
      k := i;
    } else {
      var j: nat :| j < i && Counts(pseudo, rows, j) && Key(rows[j]) == Key(rows[i]);
      k := NoDeviceIsLost(pseudo, rows, j);
    }
  }

  // What stands before the first `stop`, or all of it.
  predicate Before(s: string, stop: char, t: string) {
    t <= s && stop !in t && (|t| < |s| ==> s[|t|] == stop)
  }

  /** The device of a row: its pool when it is a zfs dataset, and its own otherwise. */
  predicate OnDevice(r: Row, name: string) {
    if r.fstype == "zfs" then Before(r.dev, '/', name) else name == r.dev
  }

  /** Row `i` is what its path resolves to, of a type not on the list, and of a disk. */
  ghost predicate Real(pseudo: seq<string>, rows: seq<Row>, i: nat) {
    && i < |rows|
    && (forall j: nat :: i < j < |rows| ==> rows[j].mount != rows[i].mount)
    && (forall base :: Before(rows[i].fstype, '.', base) ==> base !in pseudo)
    && (rows[i].fstype == "zfs" || rows[i].fstype == "btrfs" || (rows[i].dev != [] && rows[i].dev[0] == '/'))
  }

  lemma DeviceIsTheKey(r: Row, name: string)
    ensures OnDevice(r, name) <==> name == Key(r)
  {
    if r.fstype == "zfs" && OnDevice(r, name) {
      UntilIs(r.dev, '/', name);
    }
  }

  lemma RealCounts(pseudo: seq<string>, rows: seq<Row>, i: nat)
    requires i < |rows| && forall s <- pseudo :: '.' !in s
    ensures Real(pseudo, rows, i) <==> Counts(pseudo, rows, i)
  {
    var base := Until(rows[i].fstype, '.');
    assert Before(rows[i].fstype, '.', base);
    SkipByFlavour(pseudo, rows[i].fstype);
    forall t | Before(rows[i].fstype, '.', t) ensures t == base {
      UntilIs(rows[i].fstype, '.', t);
    }
  }

  /** A row is chosen exactly when it is real and no earlier real row is of the same device. */
  lemma FirstOfEachDevice(pseudo: seq<string>, rows: seq<Row>, i: nat)
    requires i < |rows| && forall s <- pseudo :: '.' !in s
    ensures i in Chosen(pseudo, rows, |rows|) <==>
              && Real(pseudo, rows, i)
              && forall j: nat, name :: j < i && Real(pseudo, rows, j) && OnDevice(rows[i], name) ==>
                   !OnDevice(rows[j], name)
  {
    ChosenExactly(pseudo, rows, |rows|);
    RealCounts(pseudo, rows, i);
    DeviceIsTheKey(rows[i], Key(rows[i]));
    forall j: nat | j < i ensures Real(pseudo, rows, j) <==> Counts(pseudo, rows, j) {
      RealCounts(pseudo, rows, j);
    }
    forall j: nat, name | j < i ensures OnDevice(rows[j], name) <==> name == Key(rows[j]) {
      DeviceIsTheKey(rows[j], name);
    }
    forall name ensures OnDevice(rows[i], name) <==> name == Key(rows[i]) {
      DeviceIsTheKey(rows[i], name);
    }
  }

  // ---------------------------------------------------------- kernel tables

  // Number signs are escaped outside paths, by the kernels that do.
  function Escape(hash: bool, c: char): string {
    if c == ' ' then "\\040"
    else if hash && c == '#' then "\\043"
    else if c == '\t' then "\\011"
    else if c == '\n' then "\\012"
    else if c == '\\' then "\\134"
    else [c]
  }

  function Mangled(hash: bool, s: string): string {
    if s == [] then [] else Escape(hash, s[0]) + Mangled(hash, s[1..])
  }

  // No blank in a field but the three the kernel escapes.
  predicate Printable(s: string) {
    s != [] && forall c <- s :: IsSpace(c) ==> c == ' ' || c == '\t' || c == '\n'
  }

  /** A line of the table: the mount, and the options and numbers after it. */
  datatype Entry = Entry(row: Row, options: string)

  // A type holds nothing to escape.
  predicate PlainType(s: string) {
    NoSpace(s) && '\\' !in s && '#' !in s
  }

  predicate Sound(e: Entry) {
    && Printable(e.row.dev) && Printable(e.row.mount)
    && e.row.fstype != [] && PlainType(e.row.fstype)
    && '\n' !in e.options
  }

  function MangledRow(hash: bool, r: Row): Row {
    Row(Mangled(hash, r.dev), Mangled(false, r.mount), Mangled(hash, r.fstype))
  }

  function LineOf(hash: bool, e: Entry): string {
    var r := MangledRow(hash, e.row);
    r.dev + ([' '] + (r.mount + ([' '] + (r.fstype + ([' '] + e.options)))))
  }

  function TableText(hash: bool, table: seq<Entry>): string {
    if table == [] then [] else LineOf(hash, table[0]) + (['\n'] + TableText(hash, table[1..]))
  }

  function RowsIn(table: seq<Entry>): (rows: seq<Row>)
    ensures |rows| == |table| && forall i :: 0 <= i < |rows| ==> rows[i] == table[i].row
  {
    if table == [] then [] else [table[0].row] + RowsIn(table[1..])
  }

  function MangledRows(hash: bool, rows: seq<Row>): (mangled: seq<Row>)
    ensures |mangled| == |rows| && forall i :: 0 <= i < |rows| ==> mangled[i] == MangledRow(hash, rows[i])
  {
    if rows == [] then [] else [MangledRow(hash, rows[0])] + MangledRows(hash, rows[1..])
  }

  lemma {:induction false} MangledIsOneField(hash: bool, s: string)
    requires Printable(s)
    ensures Mangled(hash, s) != [] && NoSpace(Mangled(hash, s))
  {
    assert s[0] in s;
    assert NoSpace(Escape(hash, s[0]));
    if s[1..] != [] {
      assert forall c <- s[1..] :: c in s;
      MangledIsOneField(hash, s[1..]);
    }
  }

  lemma {:induction false} WordIs(w: string, t: string)
    requires NoSpace(w) && (t != [] ==> IsSpace(t[0]))
    ensures Word(w + t) == w
  {
    if w != [] {
      assert w[0] in w;
      assert (w + t)[1..] == w[1..] + t;
      assert forall c <- w[1..] :: c in w;
      WordIs(w[1..], t);
    } else {
      assert w + t == t;
    }
  }

  lemma FieldsOf(w: string, t: string)
    requires w != [] && NoSpace(w)
    ensures Fields(w + ([' '] + t)) == [w] + Fields(t)
  {
    var s := w + ([' '] + t);
    WordIs(w, [' '] + t);
    assert s[0] == w[0] && w[0] in w;
    assert s[|w|..] == [' '] + t;
    assert ([' '] + t)[1..] == t;
  }

  lemma LineFields(hash: bool, e: Entry)
    requires Sound(e)
    ensures var f, r := Fields(LineOf(hash, e)), MangledRow(hash, e.row);
            |f| >= 3 && f[0] == r.dev && f[1] == r.mount && f[2] == r.fstype
  {
    var r := MangledRow(hash, e.row);
    MangledIsOneField(hash, e.row.dev);
    MangledIsOneField(false, e.row.mount);
    MangledIsOneField(hash, e.row.fstype);
    FieldsOf(r.dev, r.mount + ([' '] + (r.fstype + ([' '] + e.options))));
    FieldsOf(r.mount, r.fstype + ([' '] + e.options));
    FieldsOf(r.fstype, e.options);
  }

  lemma {:induction false} LineIs(l: string, t: string)
    requires '\n' !in l
    ensures Line(l + (['\n'] + t)) == l
  {
    var s := l + (['\n'] + t);
    if l == [] {
      assert s[0] == '\n';
    } else {
      assert l[0] in l;
      assert s[1..] == l[1..] + (['\n'] + t);
      assert forall c <- l[1..] :: c in l;
      LineIs(l[1..], t);
    }
  }

  lemma FirstLine(l: string, t: string)
    requires '\n' !in l
    ensures Lines(l + (['\n'] + t)) == [l] + Lines(t)
  {
    var s := l + (['\n'] + t);
    LineIs(l, t);
    assert s[|l| + 1..] == t;
    assert s != [] && |Line(s)| < |s|;
  }

  lemma FirstRow(l: string, rest: seq<string>)
    ensures var f := Fields(l);
            RowsOf([l] + rest) == (if |f| >= 3 then [Row(f[0], f[1], f[2])] else []) + RowsOf(rest)
  {
    assert ([l] + rest)[1..] == rest;
  }

  lemma LineHasNoBreak(hash: bool, e: Entry)
    requires Sound(e)
    ensures '\n' !in LineOf(hash, e)
  {
    MangledIsOneField(hash, e.row.dev);
    MangledIsOneField(false, e.row.mount);
    MangledIsOneField(hash, e.row.fstype);
    assert IsSpace('\n');
  }

  /** Reading a printed table gives its rows back, mangled and in order. */
  lemma {:induction false} TableReadsBack(hash: bool, table: seq<Entry>)
    requires forall e <- table :: Sound(e)
    ensures MountRows(TableText(hash, table)) == MangledRows(hash, RowsIn(table))
  {
    if table != [] {
      var l, t := LineOf(hash, table[0]), TableText(hash, table[1..]);
      var s := TableText(hash, table);
      TableReadsBack(hash, table[1..]);
      LineHasNoBreak(hash, table[0]);
      FirstLine(l, t);
      LineFields(hash, table[0]);
      FirstRow(l, Lines(t));
      assert RowsIn(table)[1..] == RowsIn(table[1..]);
    }
  }

  lemma OtherStep(c: char, t: string)
    requires c != '\\' || |t| < 3 || t[1] != '4'
    ensures Unescaped([c] + t) == [c] + Unescaped(t)
  {
    assert ([c] + t)[1..] == t;
  }

  // Decoding one mangled character at a time.
  lemma EscapeStep(c: char, t: string)
    ensures Unescaped(Escape(false, c) + t) == (if c == ' ' then [' '] else Escape(false, c)) + Unescaped(t)
  {
    var e := Escape(false, c);
    if c == ' ' {
      assert (e + t)[4..] == t;
    } else if |e| == 1 {
      OtherStep(c, t);
    } else {
      OtherEscape(e, t);
    }
  }

  lemma OtherEscape(e: string, t: string)
    requires |e| == 4 && e[0] == '\\' && e[1] != '\\' && e[2] != '\\' && e[2] != '4' && e[3] != '\\'
    ensures Unescaped(e + t) == e + Unescaped(t)
  {
    var t3 := [e[3]] + t;
    var t2 := [e[2]] + t3;
    var t1 := [e[1]] + t2;
    OtherStep(e[3], t);
    OtherStep(e[2], t3);
    OtherStep(e[1], t2);
    OtherStep(e[0], t1);
    Spelled(e, t);
    Spelled(e, Unescaped(t));
  }

  lemma Spelled(e: string, u: string)
    requires |e| == 4
    ensures [e[0]] + ([e[1]] + ([e[2]] + ([e[3]] + u))) == e + u
  {
  }

  predicate Plain(s: string) {
    '\t' !in s && '\n' !in s && '\\' !in s
  }

  lemma {:induction false} UnescapedLength(s: string)
    ensures |Unescaped(Mangled(false, s))| >= |s|
    ensures !Plain(s) ==> |Unescaped(Mangled(false, s))| > |s|
  {
    if s != [] {
      EscapeStep(s[0], Mangled(false, s[1..]));
      UnescapedLength(s[1..]);
      assert s == [s[0]] + s[1..];
    }
  }

  /** An emitted path is the one that was mounted exactly when that path holds no
    * tab, line break or backslash: only `\040` is decoded. */
  lemma DecodedExactlyWhenPlain(s: string)
    ensures Unescaped(Mangled(false, s)) == s <==> Plain(s)
  {
    if Plain(s) {
      PlainDecodes(s);
    } else {
      UnescapedLength(s);
    }
  }

  lemma {:induction false} PlainDecodes(s: string)
    requires Plain(s)
    ensures Unescaped(Mangled(false, s)) == s
  {
    if s != [] {
      var c, rest := s[0], s[1..];
      assert s == [c] + rest && c in s;
      assert Plain(rest) by {
        assert forall d <- rest :: d in s;
      }
      PlainDecodes(rest);
      EscapeStep(c, Mangled(false, rest));
    }
  }

  // The inverse of `Mangled`, for its injectivity.
  function Demangled(s: string): string {
    if s == [] then []
    else if |s| >= 4 && s[0] == '\\' then
      [if s[2] == '4' then (if s[3] == '0' then ' ' else '#')
       else if s[3] == '1' then '\t' else if s[3] == '2' then '\n' else '\\']
      + Demangled(s[4..])
    else [s[0]] + Demangled(s[1..])
  }

  lemma {:induction false} MangledRoundTrip(hash: bool, s: string)
    ensures Demangled(Mangled(hash, s)) == s
  {
    if s != [] {
      MangledRoundTrip(hash, s[1..]);
      DemangledStep(hash, s[0], Mangled(hash, s[1..]));
    }
  }

  lemma DemangledStep(hash: bool, c: char, t: string)
    ensures Demangled(Escape(hash, c) + t) == [c] + Demangled(t)
  {
    var e := Escape(hash, c);
    assert (e + t)[|e|..] == t;
    if |e| == 4 {
      assert (e + t)[0] == '\\' && (e + t)[2] == e[2] && (e + t)[3] == e[3];
    }
  }

  lemma {:induction false} MangledPool(hash: bool, s: string)
    ensures Until(Mangled(hash, s), '/') == Mangled(hash, Until(s, '/'))
  {
    if s != [] {
      MangledPool(hash, s[1..]);
      var head, t := Escape(hash, s[0]), Mangled(hash, s[1..]);
      if s[0] != '/' {
        UntilSkips(head, t);
        var u := Until(s, '/');
        assert u[1..] == Until(s[1..], '/');
      }
    }
  }

  lemma {:induction false} UntilSkips(head: string, t: string)
    requires '/' !in head
    ensures Until(head + t, '/') == head + Until(t, '/')
  {
    if head == [] {
      assert head + t == t;
    } else {
      assert head[0] in head;
      assert (head + t)[1..] == head[1..] + t;
      assert forall c <- head[1..] :: c in head;
      UntilSkips(head[1..], t);
    }
  }

  lemma {:induction false} MangledIsItself(hash: bool, s: string)
    requires PlainType(s)
    ensures Mangled(hash, s) == s
  {
    if s != [] {
      assert s[0] in s;
      assert forall c <- s[1..] :: c in s;
      MangledIsItself(hash, s[1..]);
      PlainEscapes(hash, s[0]);
      assert [s[0]] + s[1..] == s;
    }
  }

  lemma PlainEscapes(hash: bool, c: char)
    requires !IsSpace(c) && c != '\\' && c != '#'
    ensures Escape(hash, c) == [c]
  {
  }

  lemma MangledKeys(hash: bool, a: Row, b: Row)
    requires PlainType(a.fstype) && PlainType(b.fstype)
    requires a.dev != []
    ensures MangledRow(hash, a).fstype == a.fstype
    ensures Backed(MangledRow(hash, a)) == Backed(a)
    ensures Key(MangledRow(hash, a)) == Key(MangledRow(hash, b)) <==> Key(a) == Key(b)
  {
    MangledIsItself(hash, a.fstype);
    MangledIsItself(hash, b.fstype);
    MangledPool(hash, a.dev);
    MangledPool(hash, b.dev);
    MangledRoundTrip(hash, Key(a));
    MangledRoundTrip(hash, Key(b));
  }

  predicate SoundRow(r: Row) {
    r.dev != [] && PlainType(r.fstype)
  }

  lemma MangledCounts(hash: bool, pseudo: seq<string>, rows: seq<Row>, i: nat)
    requires i < |rows| && forall r <- rows :: SoundRow(r)
    ensures Counts(pseudo, MangledRows(hash, rows), i) <==> Counts(pseudo, rows, i)
  {
    var m := MangledRows(hash, rows);
    assert SoundRow(rows[i]);
    MangledKeys(hash, rows[i], rows[i]);
    forall j | i < j < |rows|
      ensures m[j].mount == m[i].mount <==> rows[j].mount == rows[i].mount
    {
      MangledRoundTrip(false, rows[i].mount);
      MangledRoundTrip(false, rows[j].mount);
    }
    assert LastOnPath(m, i) <==> LastOnPath(rows, i);
  }

  lemma MangledEmits(hash: bool, pseudo: seq<string>, rows: seq<Row>, i: nat)
    requires i < |rows| && forall r <- rows :: SoundRow(r)
    ensures Emits(pseudo, MangledRows(hash, rows), i) <==> Emits(pseudo, rows, i)
  {
    var m := MangledRows(hash, rows);
    MangledCounts(hash, pseudo, rows, i);
    forall j | 0 <= j < i
      ensures Counts(pseudo, m, j) <==> Counts(pseudo, rows, j)
      ensures Key(m[j]) == Key(m[i]) <==> Key(rows[j]) == Key(rows[i])
    {
      MangledCounts(hash, pseudo, rows, j);
      assert SoundRow(rows[i]) && SoundRow(rows[j]);
      MangledKeys(hash, rows[j], rows[i]);
    }
  }

  lemma {:induction false} ChosenAlike(pseudo: seq<string>, a: seq<Row>, b: seq<Row>, n: nat)
    requires n <= |a| && |a| == |b|
    requires forall i: nat :: i < n ==> (Emits(pseudo, a, i) <==> Emits(pseudo, b, i))
    ensures Chosen(pseudo, a, n) == Chosen(pseudo, b, n)
  {
    if n > 0 {
      ChosenAlike(pseudo, a, b, n - 1);
      assert Emits(pseudo, a, n - 1) <==> Emits(pseudo, b, n - 1);
    }
  }

  /** Selecting from the printed text selects from the mounts themselves, and each
    * path emitted is the mount point of its row exactly when that is plain. */
  lemma SelectsFromTheMounts(hash: bool, pseudo: seq<string>, table: seq<Entry>, n: nat)
    requires forall e <- table :: Sound(e)
    requires n < |Chosen(pseudo, RowsIn(table), |table|)|
    ensures var rows, read := RowsIn(table), MountRows(TableText(hash, table));
            && |read| == |table|
            && Chosen(pseudo, read, |read|) == Chosen(pseudo, rows, |rows|)
            && var mounted := rows[Chosen(pseudo, rows, |rows|)[n]].mount;
               Paths(read, Chosen(pseudo, read, |read|))[n] == mounted <==> Plain(mounted)
  {
    var rows := RowsIn(table);
    TableReadsBack(hash, table);
    forall r | r in rows
      ensures SoundRow(r)
    {
      var i :| 0 <= i < |rows| && rows[i] == r;
      assert Sound(table[i]);
    }
    var m := MangledRows(hash, rows);
    forall i: nat | i < |rows|
      ensures Emits(pseudo, m, i) <==> Emits(pseudo, rows, i)
    {
      MangledEmits(hash, pseudo, rows, i);
    }
    ChosenAlike(pseudo, m, rows, |rows|);
    DecodedExactlyWhenPlain(rows[Chosen(pseudo, rows, |rows|)[n]].mount);
  }
}
