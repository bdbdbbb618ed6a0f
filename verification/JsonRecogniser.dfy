/** A character-by-character recogniser for JSON texts, by the grammar of RFC 8259. */
module JsonRecogniser {
  datatype Frame = Arr | Obj

  /** What the recogniser is in the middle of. `key` marks the strings that name a member. */
  datatype Lex =
    | Want | WantOrClose | Key | KeyOrClose | Colon | Done
    | Str(key: bool) | Esc(key: bool) | Hex(key: bool, left: nat)
    | Word(rest: string)
    | Minus | Zero | Int | Dot | Frac | Exp | ExpSign | ExpDigits
    | Dead

  datatype Config = Config(lex: Lex, stack: seq<Frame>)

  const START := Config(Want, [])
  const DEAD := Config(Dead, [])

  predicate IsSpace(c: char) {
    c == ' ' || c == '\t' || c == '\n' || c == '\r'
  }

  predicate IsDigit(c: char) {
    '0' <= c <= '9'
  }

  predicate IsHex(c: char) {
    '0' <= c <= '9' || 'a' <= c <= 'f' || 'A' <= c <= 'F'
  }

  /** May stand in a string as it is. */
  predicate IsPlain(c: char) {
    c >= ' ' && c != '"' && c != '\\'
  }

  predicate IsEscape(c: char) {
    c == '"' || c == '\\' || c == '/' || c == 'b' || c == 'f' || c == 'n' || c == 'r' || c == 't'
  }

  /** The first character of a value. */
  function Open(stack: seq<Frame>, c: char): Config {
    if c == '"' then Config(Str(false), stack)
    else if c == '[' then Config(WantOrClose, stack + [Arr])
    else if c == '{' then Config(KeyOrClose, stack + [Obj])
    else if c == 't' then Config(Word("rue"), stack)
    else if c == 'f' then Config(Word("alse"), stack)
    else if c == 'n' then Config(Word("ull"), stack)
    else if c == '-' then Config(Minus, stack)
    else if c == '0' then Config(Zero, stack)
    else if IsDigit(c) then Config(Int, stack)
    else DEAD
  }

  /** What follows a complete value. */
  function Follow(stack: seq<Frame>, c: char): Config {
    if IsSpace(c) then Config(Done, stack)
    else if stack == [] then DEAD
    else
      var (below, top) := (stack[..|stack| - 1], stack[|stack| - 1]);
      if c == ',' then Config(if top.Arr? then Want else Key, stack)
      else if c == ']' && top.Arr? then Config(Done, below)
      else if c == '}' && top.Obj? then Config(Done, below)
      else DEAD
  }

  function Close(stack: seq<Frame>): Config
    requires stack != []
  {
    Config(Done, stack[..|stack| - 1])
  }

  /** A string has ended. */
  function Ended(key: bool, stack: seq<Frame>): Config {
    Config(if key then Colon else Done, stack)
  }

  function Feed(k: Config, c: char): Config {
    var stack := k.stack;
    match k.lex
    case Want => if IsSpace(c) then k else Open(stack, c)
    case WantOrClose =>
      if IsSpace(c) then k else if c == ']' && stack != [] then Close(stack) else Open(stack, c)
    case Key => if IsSpace(c) then k else if c == '"' then Config(Str(true), stack) else DEAD
    case KeyOrClose =>
      if IsSpace(c) then k
      else if c == '}' && stack != [] then Close(stack)
      else if c == '"' then Config(Str(true), stack) else DEAD
    case Colon => if IsSpace(c) then k else if c == ':' then Config(Want, stack) else DEAD
    case Done => Follow(stack, c)
    case Str(key) =>
      if c == '"' then Ended(key, stack)
      else if c == '\\' then Config(Esc(key), stack)
      else if IsPlain(c) then k else DEAD
    case Esc(key) =>
      if c == 'u' then Config(Hex(key, 4), stack)
      else if IsEscape(c) then Config(Str(key), stack) else DEAD
    case Hex(key, left) =>
      if !IsHex(c) then DEAD
      else if left <= 1 then Config(Str(key), stack) else Config(Hex(key, left - 1), stack)
    case Word(rest) =>
      if rest == [] || c != rest[0] then DEAD
      else if |rest| == 1 then Config(Done, stack) else Config(Word(rest[1..]), stack)
    case Minus => if c == '0' then Config(Zero, stack) else if IsDigit(c) then Config(Int, stack) else DEAD
    case Zero => if c == '.' then Config(Dot, stack) else if IsE(c) then Config(Exp, stack) else Follow(stack, c)
    case Int =>
      if IsDigit(c) then k
      else if c == '.' then Config(Dot, stack) else if IsE(c) then Config(Exp, stack) else Follow(stack, c)
    case Dot => if IsDigit(c) then Config(Frac, stack) else DEAD
    case Frac => if IsDigit(c) then k else if IsE(c) then Config(Exp, stack) else Follow(stack, c)
    case Exp =>
      if c == '+' || c == '-' then Config(ExpSign, stack)
      else if IsDigit(c) then Config(ExpDigits, stack) else DEAD
    case ExpSign => if IsDigit(c) then Config(ExpDigits, stack) else DEAD
    case ExpDigits => if IsDigit(c) then k else Follow(stack, c)
    case Dead => DEAD
  }

  predicate IsE(c: char) {
    c == 'e' || c == 'E'
  }

  function Run(k: Config, s: string): Config
    decreases |s|
  {
    if s == [] then k else Run(Feed(k, s[0]), s[1..])
  }

  /** A value is complete as it stands. */
  predicate Complete(lex: Lex) {
    lex.Done? || lex.Zero? || lex.Int? || lex.Frac? || lex.ExpDigits?
  }

  predicate Accepting(k: Config) {
    k.stack == [] && Complete(k.lex)
  }

  predicate Accepts(s: string) {
    Accepting(Run(START, s))
  }

  lemma {:induction false} RunConcat(k: Config, a: string, b: string)
    ensures Run(k, a + b) == Run(Run(k, a), b)
    decreases |a|
  {
    if a == [] {
      assert a + b == b;
    } else {
      assert (a + b)[1..] == a[1..] + b;
      RunConcat(Feed(k, a[0]), a[1..], b);
    }
  }

  lemma RunOne(k: Config, a: char)
    ensures Run(k, [a]) == Feed(k, a)
  {
    assert [a][1..] == [];
  }

  lemma RunTwo(k: Config, a: char, b: char)
    ensures Run(k, [a, b]) == Feed(Feed(k, a), b)
  {
    assert [a, b][1..] == [b];
    RunOne(Feed(k, a), b);
  }

  lemma {:induction false} DeadForever(k: Config, s: string)
    requires k.lex.Dead?
    ensures Run(k, s).lex.Dead? && !Accepting(Run(k, s))
    decreases |s|
  {
    if s != [] {
      DeadForever(Feed(k, s[0]), s[1..]);
    }
  }

  /** Only letters of the three literals are ever awaited. */
  predicate Sane(k: Config) {
    k.lex.Word? ==> forall i :: 0 <= i < |k.lex.rest| ==> k.lex.rest[i] in "truefalsn"
  }

  lemma FeedSane(k: Config, c: char)
    requires Sane(k)
    ensures Sane(Feed(k, c))
  {
    if c == 't' { assert forall i :: 0 <= i < 3 ==> "rue"[i] in "truefalsn"; }
    if c == 'f' { assert forall i :: 0 <= i < 4 ==> "alse"[i] in "truefalsn"; }
    if c == 'n' { assert forall i :: 0 <= i < 3 ==> "ull"[i] in "truefalsn"; }
  }
}
