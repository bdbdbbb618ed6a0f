/** The grammar of RFC 8259 as concrete syntax trees, and what the recogniser has to
  * do with it: it accepts exactly the texts of the well-formed trees. */
module JsonGrammar {
  import opened JsonRecogniser

  // ----------------------------------------------------------- the grammar

  datatype Unit = Plain(c: char) | Short(c: char) | Code(h: string)

  // Section 6: a sign, an integer part, a fraction and an exponent.
  datatype Number = Number(minus: bool, whole: string, frac: string, exp: string)

  datatype Value =
    | True | False | Null
    | Num(n: Number)
    | Text(units: seq<Unit>)
    | EmptyList(inside: string)
    | List(items: Items)
    | EmptyRecord(inside: string)
    | Record(members: Members)

  // A value with the white space around it.
  datatype Item = Item(before: string, v: Value, after: string)
  datatype Items = LastItem(i: Item) | NextItem(i: Item, more: Items)
  datatype Member = Member(before: string, key: seq<Unit>, after: string, i: Item)
  datatype Members = LastMember(m: Member) | NextMember(m: Member, rest: Members)

  predicate Spaces(s: string) {
    forall i :: 0 <= i < |s| ==> IsSpace(s[i])
  }

  predicate Digits(s: string) {
    s != [] && forall i :: 0 <= i < |s| ==> IsDigit(s[i])
  }

  predicate GoodUnit(u: Unit) {
    match u
    case Plain(c) => IsPlain(c)
    case Short(c) => IsEscape(c)
    case Code(h) => |h| == 4 && IsHex(h[0]) && IsHex(h[1]) && IsHex(h[2]) && IsHex(h[3])
  }

  predicate GoodUnits(us: seq<Unit>) {
    forall i :: 0 <= i < |us| ==> GoodUnit(us[i])
  }

  predicate GoodExp(e: string) {
    e == [] || (IsE(e[0])
      && (Digits(e[1..]) || (|e| > 1 && (e[1] == '+' || e[1] == '-') && Digits(e[2..]))))
  }

  predicate GoodNumber(n: Number) {
    && Digits(n.whole) && (n.whole[0] == '0' ==> |n.whole| == 1)
    && (n.frac == [] || (n.frac[0] == '.' && Digits(n.frac[1..])))
    && GoodExp(n.exp)
  }

  predicate GoodValue(v: Value) {
    match v
    case Num(n) => GoodNumber(n)
    case Text(us) => GoodUnits(us)
    case EmptyList(w) => Spaces(w)
    case List(items) => GoodItems(items)
    case EmptyRecord(w) => Spaces(w)
    case Record(members) => GoodMembers(members)
    case _ => true
  }

  predicate GoodItem(i: Item) {
    Spaces(i.before) && GoodValue(i.v) && Spaces(i.after)
  }

  predicate GoodItems(items: Items) {
    GoodItem(items.i) && (items.NextItem? ==> GoodItems(items.more))
  }

  predicate GoodMembers(ms: Members) {
    && Spaces(ms.m.before) && GoodUnits(ms.m.key) && Spaces(ms.m.after) && GoodItem(ms.m.i)
    && (ms.NextMember? ==> GoodMembers(ms.rest))
  }

  function UnitText(u: Unit): string {
    match u
    case Plain(c) => [c]
    case Short(c) => ['\\', c]
    case Code(h) => ['\\', 'u'] + h
  }

  function UnitsText(us: seq<Unit>): string {
    if us == [] then [] else UnitText(us[0]) + UnitsText(us[1..])
  }

  function Quoted(us: seq<Unit>): string {
    ['"'] + (UnitsText(us) + ['"'])
  }

  function NumberText(n: Number): string {
    (if n.minus then ['-'] else []) + (n.whole + (n.frac + n.exp))
  }

  function ValueText(v: Value): string {
    match v
    case True => "true"
    case False => "false"
    case Null => "null"
    case Num(n) => NumberText(n)
    case Text(us) => Quoted(us)
    case EmptyList(w) => ['['] + (w + [']'])
    case List(items) => ['['] + (ItemsText(items) + [']'])
    case EmptyRecord(w) => ['{'] + (w + ['}'])
    case Record(members) => ['{'] + (MembersText(members) + ['}'])
  }

  function ItemText(i: Item): string {
    i.before + (ValueText(i.v) + i.after)
  }

  function ItemsText(items: Items): string {
    match items
    case LastItem(i) => ItemText(i)
    case NextItem(i, more) => ItemText(i) + ([','] + ItemsText(more))
  }

  function MemberText(m: Member): string {
    m.before + (Quoted(m.key) + (m.after + ([':'] + ItemText(m.i))))
  }

  function MembersText(ms: Members): string {
    match ms
    case LastMember(m) => MemberText(m)
    case NextMember(m, rest) => MemberText(m) + ([','] + MembersText(rest))
  }

  /** A JSON text: a value with white space around it (section 2). */
  ghost predicate IsJson(s: string) {
    exists i: Item :: GoodItem(i) && ItemText(i) == s
  }

  // ------------------------------------- every well-formed text is accepted

  lemma RunCons(k: Config, c: char, s: string)
    ensures Run(k, [c] + s) == Run(Feed(k, c), s)
  {
    assert ([c] + s)[1..] == s;
  }

  predicate Waits(lex: Lex) {
    lex.Want? || lex.WantOrClose? || lex.Key? || lex.KeyOrClose? || lex.Colon? || lex.Done?
  }

  lemma {:induction false} RunSpaces(k: Config, w: string)
    requires Waits(k.lex) && Spaces(w)
    ensures Run(k, w) == k
    decreases |w|
  {
    if w != [] {
      RunSpaces(k, w[1..]);
    }
  }

  // At the end of a value: what comes next is up to the stack.
  predicate Ends(k: Config, stack: seq<Frame>) {
    Complete(k.lex) && k.stack == stack
  }

  predicate Separates(c: char) {
    IsSpace(c) || c == ',' || c == ']' || c == '}'
  }

  lemma EndsFollow(k: Config, stack: seq<Frame>, c: char)
    requires Ends(k, stack) && Separates(c)
    ensures Feed(k, c) == Follow(stack, c)
  {
  }

  lemma SpacesAfter(k: Config, stack: seq<Frame>, w: string)
    requires Ends(k, stack) && Spaces(w)
    ensures Ends(Run(k, w), stack)
  {
    if w != [] {
      EndsFollow(k, stack, w[0]);
      RunSpaces(Config(Done, stack), w[1..]);
    }
  }

  lemma {:induction false} RunWord(rest: string, stack: seq<Frame>)
    requires rest != []
    ensures Run(Config(Lex.Word(rest), stack), rest) == Config(Done, stack)
  {
    if |rest| > 1 {
      RunWord(rest[1..], stack);
    } else {
      assert rest[1..] == [];
    }
  }

  lemma {:induction false} RunUnits(key: bool, stack: seq<Frame>, us: seq<Unit>)
    requires GoodUnits(us)
    ensures Run(Config(Str(key), stack), UnitsText(us)) == Config(Str(key), stack)
    decreases |us|
  {
    if us != [] {
      RunUnit(key, stack, us[0]);
      RunConcat(Config(Str(key), stack), UnitText(us[0]), UnitsText(us[1..]));
      RunUnits(key, stack, us[1..]);
    }
  }

  lemma RunUnit(key: bool, stack: seq<Frame>, u: Unit)
    requires GoodUnit(u)
    ensures Run(Config(Str(key), stack), UnitText(u)) == Config(Str(key), stack)
  {
    var k := Config(Str(key), stack);
    match u
    case Plain(c) => RunOne(k, c);
    case Short(c) => RunTwo(k, '\\', c);
    case Code(h) =>
      RunTwo(k, '\\', 'u');
      RunConcat(k, ['\\', 'u'], h);
      RunHex(key, stack, h);
  }

  lemma {:induction false} RunHex(key: bool, stack: seq<Frame>, h: string)
    requires 1 <= |h| && forall i :: 0 <= i < |h| ==> IsHex(h[i])
    ensures Run(Config(Hex(key, |h|), stack), h) == Config(Str(key), stack)
    decreases |h|
  {
    if |h| > 1 {
      RunHex(key, stack, h[1..]);
    } else {
      assert h[1..] == [];
    }
  }

  lemma RunBracketed(k: Config, c: char, inside: string, close: char)
    ensures Run(k, [c] + (inside + [close])) == Feed(Run(Feed(k, c), inside), close)
  {
    RunCons(k, c, inside + [close]);
    RunConcat(Feed(k, c), inside, [close]);
    RunOne(Run(Feed(k, c), inside), close);
  }

  lemma RunQuoted(stack: seq<Frame>, key: bool, us: seq<Unit>)
    requires GoodUnits(us)
    ensures Run(Config(if key then Key else Want, stack), Quoted(us)) == Ended(key, stack)
  {
    RunUnits(key, stack, us);
    if key {
      RunBracketed(Config(Key, stack), '"', UnitsText(us), '"');
    } else {
      RunBracketed(Config(Want, stack), '"', UnitsText(us), '"');
    }
  }

  // A state that digits do not change.
  lemma {:induction false} RunDigits(k: Config, ds: string)
    requires k.lex.Int? || k.lex.Frac? || k.lex.ExpDigits?
    requires forall i :: 0 <= i < |ds| ==> IsDigit(ds[i])
    ensures Run(k, ds) == k
    decreases |ds|
  {
    if ds != [] {
      RunDigits(k, ds[1..]);
    }
  }

  lemma RunWhole(k: Config, ds: string)
    requires k.lex.Want? || k.lex.Minus?
    requires Digits(ds) && (ds[0] == '0' ==> |ds| == 1)
    ensures Run(k, ds) == Config(if ds[0] == '0' then Zero else Int, k.stack)
  {
    if |ds| > 1 {
      RunDigits(Config(Int, k.stack), ds[1..]);
    } else {
      assert ds[1..] == [];
    }
  }

  lemma RunFrac(k: Config, f: string)
    requires k.lex.Zero? || k.lex.Int?
    requires f == [] || (f[0] == '.' && Digits(f[1..]))
    ensures Run(k, f) == if f == [] then k else Config(Frac, k.stack)
  {
    if f != [] {
      RunDigits(Config(Frac, k.stack), f[1..][1..]);
    }
  }

  lemma RunExp(k: Config, e: string)
    requires k.lex.Zero? || k.lex.Int? || k.lex.Frac?
    requires GoodExp(e)
    ensures Run(k, e) == if e == [] then k else Config(ExpDigits, k.stack)
  {
    if e != [] {
      var x := Config(Exp, k.stack);
      assert Run(k, e) == Run(x, e[1..]);
      if Digits(e[1..]) {
        RunDigits(Config(ExpDigits, k.stack), e[1..][1..]);
      } else {
        assert e[1..][1..] == e[2..];
        RunDigits(Config(ExpDigits, k.stack), e[2..][1..]);
        assert Run(x, e[1..]) == Run(Config(ExpSign, k.stack), e[2..]);
      }
    }
  }

  lemma RunNumber(stack: seq<Frame>, n: Number)
    requires GoodNumber(n)
    ensures Ends(Run(Config(Want, stack), NumberText(n)), stack)
  {
    var k := Config(Want, stack);
    var rest := n.whole + (n.frac + n.exp);
    var signed := if n.minus then Config(Minus, stack) else k;
    if n.minus {
      RunCons(k, '-', rest);
    } else {
      assert [] + rest == rest;
    }
    RunConcat(signed, n.whole, n.frac + n.exp);
    RunWhole(signed, n.whole);
    var whole := Config(if n.whole[0] == '0' then Zero else Int, stack);
    RunConcat(whole, n.frac, n.exp);
    RunFrac(whole, n.frac);
    RunExp(Run(whole, n.frac), n.exp);
  }

  lemma ValueStarts(v: Value)
    requires GoodValue(v)
    ensures ValueText(v) != [] && !IsSpace(ValueText(v)[0]) && ValueText(v)[0] != ']'
  {
  }

  // Where a bracket may close, a value may stand as well.
  lemma {:induction false} RunOrClose(stack: seq<Frame>, w: string, s: string)
    requires Spaces(w) && s != [] && !IsSpace(s[0]) && s[0] != ']'
    ensures Run(Config(WantOrClose, stack), w + s) == Run(Config(Want, stack), w + s)
  {
    RunConcat(Config(WantOrClose, stack), w, s);
    RunConcat(Config(Want, stack), w, s);
    RunSpaces(Config(WantOrClose, stack), w);
    RunSpaces(Config(Want, stack), w);
  }

  lemma {:induction false} RunKeyOrClose(stack: seq<Frame>, w: string, s: string)
    requires Spaces(w) && s != [] && s[0] == '"'
    ensures Run(Config(KeyOrClose, stack), w + s) == Run(Config(Key, stack), w + s)
  {
    RunConcat(Config(KeyOrClose, stack), w, s);
    RunConcat(Config(Key, stack), w, s);
    RunSpaces(Config(KeyOrClose, stack), w);
    RunSpaces(Config(Key, stack), w);
  }

  lemma FirstItemOpens(stack: seq<Frame>, items: Items)
    requires GoodItems(items)
    ensures Run(Config(WantOrClose, stack), ItemsText(items)) == Run(Config(Want, stack), ItemsText(items))
  {
    var i := items.i;
    var tail := if items.LastItem? then i.after else i.after + ([','] + ItemsText(items.more));
    ValueStarts(i.v);
    assert ItemsText(items) == i.before + (ValueText(i.v) + tail);
    RunOrClose(stack, i.before, ValueText(i.v) + tail);
  }

  lemma FirstMemberOpens(stack: seq<Frame>, ms: Members)
    requires GoodMembers(ms)
    ensures Run(Config(KeyOrClose, stack), MembersText(ms)) == Run(Config(Key, stack), MembersText(ms))
  {
    var m := ms.m;
    var tail := m.after + ([':'] + ItemText(m.i));
    var all := if ms.LastMember? then tail else tail + ([','] + MembersText(ms.rest));
    assert MembersText(ms) == m.before + (Quoted(m.key) + all);
    RunKeyOrClose(stack, m.before, Quoted(m.key) + all);
  }

  lemma RunLiteral(stack: seq<Frame>, v: Value)
    requires v.True? || v.False? || v.Null?
    ensures Run(Config(Want, stack), ValueText(v)) == Config(Done, stack)
  {
    var t := ValueText(v);
    RunCons(Config(Want, stack), t[0], t[1..]);
    RunWord(t[1..], stack);
    assert t == [t[0]] + t[1..];
  }

  lemma {:induction false} RunValue(stack: seq<Frame>, v: Value)
    requires GoodValue(v)
    ensures Ends(Run(Config(Want, stack), ValueText(v)), stack)
    decreases v
  {
    var k, inArr, inObj := Config(Want, stack), stack + [Arr], stack + [Obj];
    match v
    case Num(n) => RunNumber(stack, n);
    case Text(us) => RunQuoted(stack, false, us);
    case EmptyList(w) =>
      RunBracketed(k, '[', w, ']');
      RunSpaces(Config(WantOrClose, inArr), w);
    case List(items) =>
      RunBracketed(k, '[', ItemsText(items), ']');
      FirstItemOpens(inArr, items);
      RunItems(inArr, items);
      EndsFollow(Run(Config(Want, inArr), ItemsText(items)), inArr, ']');
    case EmptyRecord(w) =>
      RunBracketed(k, '{', w, '}');
      RunSpaces(Config(KeyOrClose, inObj), w);
    case Record(members) =>
      RunBracketed(k, '{', MembersText(members), '}');
      FirstMemberOpens(inObj, members);
      RunMembers(inObj, members);
      EndsFollow(Run(Config(Key, inObj), MembersText(members)), inObj, '}');
    case _ => RunLiteral(stack, v);
  }

  lemma {:induction false} RunItem(stack: seq<Frame>, i: Item)
    requires GoodItem(i)
    ensures Ends(Run(Config(Want, stack), ItemText(i)), stack)
    decreases i, 0
  {
    var k := Config(Want, stack);
    RunConcat(k, i.before, ValueText(i.v) + i.after);
    RunSpaces(k, i.before);
    RunConcat(k, ValueText(i.v), i.after);
    RunValue(stack, i.v);
    SpacesAfter(Run(k, ValueText(i.v)), stack, i.after);
  }

  lemma {:induction false} RunItems(stack: seq<Frame>, items: Items)
    requires GoodItems(items) && stack != [] && stack[|stack| - 1].Arr?
    ensures Ends(Run(Config(Want, stack), ItemsText(items)), stack)
    decreases items, 0
  {
    var k := Config(Want, stack);
    RunItem(stack, items.i);
    if items.NextItem? {
      var after := Run(k, ItemText(items.i));
      RunConcat(k, ItemText(items.i), [','] + ItemsText(items.more));
      RunCons(after, ',', ItemsText(items.more));
      EndsFollow(after, stack, ',');
      RunItems(stack, items.more);
    }
  }

  lemma {:induction false} RunMember(stack: seq<Frame>, m: Member)
    requires Spaces(m.before) && GoodUnits(m.key) && Spaces(m.after) && GoodItem(m.i)
    ensures Ends(Run(Config(Key, stack), MemberText(m)), stack)
    decreases m, 0
  {
    var k := Config(Key, stack);
    var tail := [':'] + ItemText(m.i);
    RunConcat(k, m.before, Quoted(m.key) + (m.after + tail));
    RunSpaces(k, m.before);
    RunConcat(k, Quoted(m.key), m.after + tail);
    RunQuoted(stack, true, m.key);
    RunConcat(Config(Colon, stack), m.after, tail);
    RunSpaces(Config(Colon, stack), m.after);
    RunCons(Config(Colon, stack), ':', ItemText(m.i));
    RunItem(stack, m.i);
  }

  lemma {:induction false} RunMembers(stack: seq<Frame>, ms: Members)
    requires GoodMembers(ms) && stack != [] && stack[|stack| - 1].Obj?
    ensures Ends(Run(Config(Key, stack), MembersText(ms)), stack)
    decreases ms, 0
  {
    var k := Config(Key, stack);
    RunMember(stack, ms.m);
    if ms.NextMember? {
      var after := Run(k, MemberText(ms.m));
      RunConcat(k, MemberText(ms.m), [','] + MembersText(ms.rest));
      RunCons(after, ',', MembersText(ms.rest));
      EndsFollow(after, stack, ',');
      RunMembers(stack, ms.rest);
    }
  }

  lemma EveryJsonTextIsAccepted(i: Item)
    requires GoodItem(i)
    ensures Accepts(ItemText(i))
  {
    RunItem([], i);
  }
}
