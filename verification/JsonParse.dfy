/** The converse: whatever the recogniser accepts is the text of a well-formed tree,
  * read off the run one lexeme at a time. */
module JsonParse {
  import opened JsonRecogniser
  import opened JsonGrammar

  // The rest of an accepted text.
  predicate Good(k: Config, s: string) {
    Accepting(Run(k, s))
  }

  lemma GoodStep(k: Config, s: string)
    requires Good(k, s)
    ensures !k.lex.Dead?
    ensures s == [] ==> k.stack == [] && Complete(k.lex)
    ensures s != [] ==> Good(Feed(k, s[0]), s[1..]) && !Feed(k, s[0]).lex.Dead?
  {
    if k.lex.Dead? {
      DeadForever(k, s);
    } else if s != [] && Feed(k, s[0]).lex.Dead? {
      DeadForever(Feed(k, s[0]), s[1..]);
    }
  }

  lemma {:induction false} TakeSpaces(k: Config, s: string) returns (w: string, rest: string)
    requires Waits(k.lex) && Good(k, s)
    ensures s == w + rest && Spaces(w) && Good(k, rest)
    ensures rest != [] ==> !IsSpace(rest[0])
    decreases |s|
  {
    if s == [] || !IsSpace(s[0]) {
      w, rest := [], s;
    } else {
      var more;
      more, rest := TakeSpaces(k, s[1..]);
      w := [s[0]] + more;
    }
  }

  lemma {:induction false} TakeHex(key: bool, left: nat, stack: seq<Frame>, s: string)
    returns (h: string, rest: string)
    requires left >= 1 && Good(Config(Hex(key, left), stack), s)
    ensures s == h + rest && |h| == left && (forall i :: 0 <= i < |h| ==> IsHex(h[i]))
    ensures Good(Config(Str(key), stack), rest)
    decreases left
  {
    GoodStep(Config(Hex(key, left), stack), s);
    if left == 1 {
      h, rest := [s[0]], s[1..];
    } else {
      var more;
      more, rest := TakeHex(key, left - 1, stack, s[1..]);
      h := [s[0]] + more;
    }
  }

  lemma TakeUnit(key: bool, stack: seq<Frame>, s: string) returns (u: Unit, rest: string)
    requires Good(Config(Str(key), stack), s) && s != [] && s[0] != '"'
    ensures GoodUnit(u) && s == UnitText(u) + rest && Good(Config(Str(key), stack), rest)
    ensures |rest| < |s|
  {
    GoodStep(Config(Str(key), stack), s);
    if s[0] != '\\' {
      u, rest := Plain(s[0]), s[1..];
    } else {
      var t := s[1..];
      GoodStep(Config(Esc(key), stack), t);
      if t[0] == 'u' {
        var h;
        h, rest := TakeHex(key, 4, stack, t[1..]);
        u := Code(h);
        assert s == [s[0], t[0]] + t[1..];
      } else {
        u, rest := Short(t[0]), t[1..];
        assert s == [s[0], t[0]] + rest;
      }
    }
  }

  // What is left of a string after its opening quote.
  lemma {:induction false} TakeUnits(key: bool, stack: seq<Frame>, s: string) returns (us: seq<Unit>, rest: string)
    requires Good(Config(Str(key), stack), s)
    ensures GoodUnits(us) && s == UnitsText(us) + (['"'] + rest) && Good(Ended(key, stack), rest)
    decreases |s|
  {
    GoodStep(Config(Str(key), stack), s);
    if s[0] == '"' {
      us, rest := [], s[1..];
    } else {
      var u, t := TakeUnit(key, stack, s);
      var more;
      more, rest := TakeUnits(key, stack, t);
      us := [u] + more;
      assert us[1..] == more;
    }
  }

  lemma {:induction false} TakeWord(w: string, stack: seq<Frame>, s: string) returns (rest: string)
    requires w != [] && Good(Config(Lex.Word(w), stack), s)
    ensures s == w + rest && Good(Config(Done, stack), rest)
    decreases |w|
  {
    GoodStep(Config(Lex.Word(w), stack), s);
    if |w| == 1 {
      rest := s[1..];
    } else {
      rest := TakeWord(w[1..], stack, s[1..]);
    }
  }

  // ---------------------------------------------------------------- numbers

  predicate NoDigitNext(s: string) {
    s != [] ==> !IsDigit(s[0])
  }

  lemma {:induction false} TakeDigits(k: Config, s: string) returns (ds: string, rest: string)
    requires (k.lex.Int? || k.lex.Frac? || k.lex.ExpDigits?) && Good(k, s)
    ensures s == ds + rest && (forall i :: 0 <= i < |ds| ==> IsDigit(ds[i]))
    ensures Good(k, rest) && NoDigitNext(rest)
    decreases |s|
  {
    if s == [] || !IsDigit(s[0]) {
      ds, rest := [], s;
    } else {
      var more;
      more, rest := TakeDigits(k, s[1..]);
      ds := [s[0]] + more;
    }
  }

  // A number that goes no further ends as any value does.
  lemma AsDone(k: Config, rest: string)
    requires Complete(k.lex) && Good(k, rest)
    requires rest != [] ==> Feed(k, rest[0]) == Follow(k.stack, rest[0])
    ensures Good(Config(Done, k.stack), rest)
  {
  }

  lemma TakeExpDigits(stack: seq<Frame>, s: string) returns (ds: string, rest: string)
    requires s != [] && IsDigit(s[0]) && Good(Config(ExpDigits, stack), s[1..])
    ensures s == ds + rest && Digits(ds) && Good(Config(Done, stack), rest)
  {
    var more;
    more, rest := TakeDigits(Config(ExpDigits, stack), s[1..]);
    ds := [s[0]] + more;
    AsDone(Config(ExpDigits, stack), rest);
  }

  lemma TakeExp(k: Config, s: string) returns (e: string, rest: string)
    requires (k.lex.Zero? || k.lex.Int? || k.lex.Frac?) && Good(k, s)
    requires s != [] ==> s[0] != '.' || k.lex.Frac?
    requires !k.lex.Zero? ==> NoDigitNext(s)
    ensures s == e + rest && GoodExp(e) && Good(Config(Done, k.stack), rest)
  {
    if s == [] || !IsE(s[0]) {
      e, rest := [], s;
      AsDone(k, s);
    } else {
      var x, t := Config(Exp, k.stack), s[1..];
      GoodStep(k, s);
      GoodStep(x, t);
      var ds;
      if t[0] == '+' || t[0] == '-' {
        GoodStep(Config(ExpSign, k.stack), t[1..]);
        ds, rest := TakeExpDigits(k.stack, t[1..]);
        e := [s[0], t[0]] + ds;
        assert e[2..] == ds;
        assert s == [s[0], t[0]] + t[1..];
      } else {
        ds, rest := TakeExpDigits(k.stack, t);
        e := [s[0]] + ds;
        assert e[1..] == ds;
      }
    }
  }

  lemma TakeFrac(k: Config, s: string) returns (f: string, e: string, rest: string)
    requires (k.lex.Zero? || k.lex.Int?) && Good(k, s)
    requires k.lex.Int? ==> NoDigitNext(s)
    ensures s == f + (e + rest) && (f == [] || (f[0] == '.' && Digits(f[1..]))) && GoodExp(e)
    ensures Good(Config(Done, k.stack), rest)
  {
    if s == [] || s[0] != '.' {
      f := [];
      e, rest := TakeExp(k, s);
    } else {
      var t := s[1..];
      GoodStep(k, s);
      GoodStep(Config(Dot, k.stack), t);
      var ds, u := TakeDigits(Config(Frac, k.stack), t[1..]);
      f := ['.'] + ([t[0]] + ds);
      assert f[1..] == [t[0]] + ds;
      e, rest := TakeExp(Config(Frac, k.stack), u);
      assert t == [t[0]] + t[1..];
    }
  }

  lemma Regroup(a: string, b: string, c: string, rest: string)
    ensures a + (b + (c + rest)) == (a + (b + c)) + rest
  {
  }

  // From the first digit on.
  lemma TakeWhole(stack: seq<Frame>, s: string) returns (n: Number, rest: string)
    requires s != [] && IsDigit(s[0]) && Good(Config(if s[0] == '0' then Zero else Int, stack), s[1..])
    ensures GoodNumber(n) && !n.minus && s == NumberText(n) + rest && Good(Config(Done, stack), rest)
  {
    var ds, t := [], s[1..];
    if s[0] != '0' {
      ds, t := TakeDigits(Config(Int, stack), s[1..]);
    }
    var whole := [s[0]] + ds;
    var f, e;
    f, e, rest := TakeFrac(Config(if s[0] == '0' then Zero else Int, stack), t);
    n := Number(false, whole, f, e);
    assert s == whole + t;
    Regroup(whole, f, e, rest);
    assert NumberText(n) == whole + (f + e);
  }

  lemma TakeNumber(stack: seq<Frame>, s: string) returns (n: Number, rest: string)
    requires s != [] && (s[0] == '-' || IsDigit(s[0])) && Good(Config(Want, stack), s)
    ensures GoodNumber(n) && s == NumberText(n) + rest && Good(Config(Done, stack), rest)
  {
    GoodStep(Config(Want, stack), s);
    if s[0] == '-' {
      GoodStep(Config(Minus, stack), s[1..]);
      n, rest := TakeWhole(stack, s[1..]);
      assert s == ['-'] + (NumberText(n) + rest);
      n := n.(minus := true);
    } else {
      n, rest := TakeWhole(stack, s);
    }
  }

  // ----------------------------------------------------------------- values

  lemma TakeScalar(stack: seq<Frame>, s: string) returns (v: Value, rest: string)
    requires Good(Config(Want, stack), s) && s != [] && !IsSpace(s[0]) && s[0] != '[' && s[0] != '{'
    ensures GoodValue(v) && s == ValueText(v) + rest && Good(Config(Done, stack), rest) && |rest| < |s|
  {
    GoodStep(Config(Want, stack), s);
    var t := s[1..];
    assert s == [s[0]] + t;
    if s[0] == '"' {
      var us;
      us, rest := TakeUnits(false, stack, t);
      v := Text(us);
    } else if s[0] == 't' {
      rest := TakeWord("rue", stack, t);
      v := True;
      assert "true" == ['t'] + "rue";
    } else if s[0] == 'f' {
      rest := TakeWord("alse", stack, t);
      v := False;
      assert "false" == ['f'] + "alse";
    } else if s[0] == 'n' {
      rest := TakeWord("ull", stack, t);
      v := Null;
      assert "null" == ['n'] + "ull";
    } else {
      var n;
      n, rest := TakeNumber(stack, s);
      v := Num(n);
    }
  }

  lemma TakeList(stack: seq<Frame>, s: string) returns (v: Value, rest: string)
    requires s != [] && s[0] == '[' && Good(Config(Want, stack), s)
    ensures GoodValue(v) && s == ValueText(v) + rest && Good(Config(Done, stack), rest) && |rest| < |s|
    decreases |s|, 0
  {
    GoodStep(Config(Want, stack), s);
    var inside := Config(WantOrClose, stack + [Arr]);
    var w, t := TakeSpaces(inside, s[1..]);
    GoodStep(inside, t);
    if t[0] == ']' {
      v, rest := EmptyList(w), t[1..];
      assert (stack + [Arr])[..|stack|] == stack;
      Regroup(['['], w, [']'], rest);
    } else {
      SpacesBefore(Config(Want, stack + [Arr]), w, t);
      var items;
      items, rest := TakeItems(stack, s[1..]);
      v := List(items);
      Regroup(['['], ItemsText(items), [']'], rest);
    }
  }

  lemma SpacesBefore(k: Config, w: string, t: string)
    requires Waits(k.lex) && Spaces(w) && Good(k, t)
    ensures Good(k, w + t)
  {
    RunConcat(k, w, t);
    RunSpaces(k, w);
  }

  lemma TakeRecord(stack: seq<Frame>, s: string) returns (v: Value, rest: string)
    requires s != [] && s[0] == '{' && Good(Config(Want, stack), s)
    ensures GoodValue(v) && s == ValueText(v) + rest && Good(Config(Done, stack), rest) && |rest| < |s|
    decreases |s|, 0
  {
    GoodStep(Config(Want, stack), s);
    var inside := Config(KeyOrClose, stack + [Obj]);
    var w, t := TakeSpaces(inside, s[1..]);
    GoodStep(inside, t);
    if t[0] == '}' {
      v, rest := EmptyRecord(w), t[1..];
      assert (stack + [Obj])[..|stack|] == stack;
      Regroup(['{'], w, ['}'], rest);
    } else {
      SpacesBefore(Config(Key, stack + [Obj]), w, t);
      var members;
      members, rest := TakeMembers(stack, s[1..]);
      v := Record(members);
      Regroup(['{'], MembersText(members), ['}'], rest);
    }
  }

  lemma {:induction false} TakeItem(stack: seq<Frame>, s: string) returns (i: Item, rest: string)
    requires Good(Config(Want, stack), s)
    ensures GoodItem(i) && s == ItemText(i) + rest && Good(Config(Done, stack), rest) && |rest| < |s|
    ensures rest != [] ==> !IsSpace(rest[0])
    decreases |s|, 1
  {
    var before, t := TakeSpaces(Config(Want, stack), s);
    GoodStep(Config(Want, stack), t);
    var v, u, after;
    if t[0] == '[' {
      v, u := TakeList(stack, t);
    } else if t[0] == '{' {
      v, u := TakeRecord(stack, t);
    } else {
      v, u := TakeScalar(stack, t);
    }
    after, rest := TakeSpaces(Config(Done, stack), u);
    i := Item(before, v, after);
    assert s == before + (ValueText(v) + (after + rest));
  }

  // A comma and another value, or the closing bracket.
  lemma AfterItem(stack: seq<Frame>, t: string)
    requires Good(Config(Done, stack + [Arr]), t) && (t != [] ==> !IsSpace(t[0]))
    ensures t != [] && (t[0] == ',' || t[0] == ']')
    ensures t[0] == ',' ==> Good(Config(Want, stack + [Arr]), t[1..])
    ensures t[0] == ']' ==> Good(Config(Done, stack), t[1..])
  {
    GoodStep(Config(Done, stack + [Arr]), t);
    assert (stack + [Arr])[..|stack|] == stack;
  }

  lemma {:induction false} TakeItems(stack: seq<Frame>, s: string) returns (items: Items, rest: string)
    requires Good(Config(Want, stack + [Arr]), s)
    ensures GoodItems(items) && s == ItemsText(items) + ([']'] + rest) && Good(Config(Done, stack), rest)
    decreases |s|, 2
  {
    var i, t := TakeItem(stack + [Arr], s);
    AfterItem(stack, t);
    if t[0] == ',' {
      var more;
      more, rest := TakeItems(stack, t[1..]);
      items := NextItem(i, more);
      Regroup(ItemText(i), [','], ItemsText(more), [']'] + rest);
    } else {
      items, rest := LastItem(i), t[1..];
    }
  }

  lemma TakeKey(stack: seq<Frame>, s: string) returns (key: seq<Unit>, rest: string)
    requires Good(Config(Key, stack), s) && (s != [] ==> !IsSpace(s[0]))
    ensures GoodUnits(key) && s == Quoted(key) + rest && Good(Config(Colon, stack), rest)
  {
    GoodStep(Config(Key, stack), s);
    key, rest := TakeUnits(true, stack, s[1..]);
    assert s == ['"'] + (UnitsText(key) + (['"'] + rest));
    Regroup(['"'], UnitsText(key), ['"'], rest);
  }

  // From the colon on.
  lemma TakeMemberValue(stack: seq<Frame>, s: string) returns (i: Item, rest: string)
    requires Good(Config(Colon, stack), s) && (s != [] ==> !IsSpace(s[0]))
    ensures GoodItem(i) && s == ([':'] + ItemText(i)) + rest && Good(Config(Done, stack), rest)
    ensures |rest| < |s| && (rest != [] ==> !IsSpace(rest[0]))
    decreases |s|, 2
  {
    GoodStep(Config(Colon, stack), s);
    i, rest := TakeItem(stack, s[1..]);
  }

  lemma TakeMember(stack: seq<Frame>, s: string) returns (m: Member, rest: string)
    requires Good(Config(Key, stack), s)
    ensures GoodMembers(LastMember(m)) && s == MemberText(m) + rest && Good(Config(Done, stack), rest)
    ensures |rest| < |s| && (rest != [] ==> !IsSpace(rest[0]))
    decreases |s|, 3
  {
    var before, t := TakeSpaces(Config(Key, stack), s);
    var key, u := TakeKey(stack, t);
    var after, c := TakeSpaces(Config(Colon, stack), u);
    var i;
    i, rest := TakeMemberValue(stack, c);
    m := Member(before, key, after, i);
    var tail := [':'] + ItemText(i);
    assert s == before + (Quoted(key) + (after + (tail + rest)));
    Regroup(Quoted(key), after, tail, rest);
    assert MemberText(m) == before + (Quoted(key) + (after + tail));
  }

  // A comma and another member, or the closing brace.
  lemma AfterMember(stack: seq<Frame>, t: string)
    requires Good(Config(Done, stack + [Obj]), t) && (t != [] ==> !IsSpace(t[0]))
    ensures t != [] && (t[0] == ',' || t[0] == '}')
    ensures t[0] == ',' ==> Good(Config(Key, stack + [Obj]), t[1..])
    ensures t[0] == '}' ==> Good(Config(Done, stack), t[1..])
  {
    GoodStep(Config(Done, stack + [Obj]), t);
    assert (stack + [Obj])[..|stack|] == stack;
  }

  lemma {:induction false} TakeMembers(stack: seq<Frame>, s: string) returns (ms: Members, rest: string)
    requires Good(Config(Key, stack + [Obj]), s)
    ensures GoodMembers(ms) && s == MembersText(ms) + (['}'] + rest) && Good(Config(Done, stack), rest)
    decreases |s|, 4
  {
    var m, t := TakeMember(stack + [Obj], s);
    AfterMember(stack, t);
    if t[0] == ',' {
      var more;
      more, rest := TakeMembers(stack, t[1..]);
      ms := NextMember(m, more);
      Regroup(MemberText(m), [','], MembersText(more), ['}'] + rest);
    } else {
      ms, rest := LastMember(m), t[1..];
    }
  }

  /** The recogniser accepts exactly the JSON texts of RFC 8259. */
  lemma AcceptsExactlyJson(s: string)
    ensures Accepts(s) <==> IsJson(s)
  {
    if Accepts(s) {
      var i, rest := TakeItem([], s);
      GoodStep(Config(Done, []), rest);
      assert rest == [];
      assert ItemText(i) == s;
    }
    if i: Item :| GoodItem(i) && ItemText(i) == s {
      EveryJsonTextIsAccepted(i);
    }
  }
}
