/**
 * When a webhook body stays valid JSON whatever is inserted. The hub stores a body once
 * a single sample renders to JSON (server/src/notify.rs, setting_error); this module
 * says exactly which bodies that check is enough for.
 */
module TemplateCheck {
  import opened Template
  import opened JsonRecogniser
  import opened AlertNotes
  import JsonGrammar
  import JsonParse

  /** Month-day hour:minute and the offset, as the hub writes a time. */
  predicate ClockShape(t: string) {
    && |t| == 18
    && t[2] == '-' && t[5] == ' ' && t[8] == ':' && t[11] == ' ' && t[15] == ':' && (t[12] == '+' || t[12] == '-')
    && forall i :: 0 <= i < 18 && i !in {2, 5, 8, 11, 12, 15} ==> IsDigit(t[i])
  }

  /** An alert the hub can send, from any site at any time its clock writes. */
  ghost predicate Sendable(n: Note) {
    ClockShape(n.time) && (IsTest(n) || IsSignIn(n) || IsBatch(n))
  }

  /** The values the stored check renders a body with; `epoch` is how the hub's own time zone writes zero. */
  function Sample(epoch: string): Note {
    Note("test", "a\"b\\c", "{{message}}", "line\nline", "s\"i\\te", epoch)
  }

  // ---- one inserted value ----

  lemma EscapeCharKeepsString(key: bool, stack: seq<Frame>, c: char)
    ensures Run(Config(Str(key), stack), EscapeChar(c)) == Config(Str(key), stack)
  {
    var s := EscapeChar(c);
    if |s| == 1 {
      RunOne(Config(Str(key), stack), c);
    } else if |s| == 2 {
      ShortEscape(key, stack, s[1]);
      assert s == ['\\', s[1]];
    } else {
      HexDigit(c as int / 16);
      HexDigit(c as int % 16);
      CodeEscape(key, stack, s[4], s[5]);
      assert s == ['\\', 'u', '0', '0', s[4], s[5]];
    }
  }

  lemma ShortEscape(key: bool, stack: seq<Frame>, c: char)
    requires IsEscape(c)
    ensures Run(Config(Str(key), stack), ['\\', c]) == Config(Str(key), stack)
  {
    RunTwo(Config(Str(key), stack), '\\', c);
  }

  lemma CodeEscape(key: bool, stack: seq<Frame>, a: char, b: char)
    requires IsHex(a) && IsHex(b)
    ensures Run(Config(Str(key), stack), ['\\', 'u', '0', '0', a, b]) == Config(Str(key), stack)
  {
    var k := Config(Str(key), stack);
    RunTwo(k, '\\', 'u');
    FourHex(key, stack, '0', '0', a, b);
    RunConcat(k, ['\\', 'u'], ['0', '0', a, b]);
    assert ['\\', 'u'] + ['0', '0', a, b] == ['\\', 'u', '0', '0', a, b];
  }

  lemma HexDigit(d: int)
    requires 0 <= d < 16
    ensures IsHex(HEX_DIGITS[d])
  {
  }

  lemma FourHex(key: bool, stack: seq<Frame>, a: char, b: char, c: char, d: char)
    requires IsHex(a) && IsHex(b) && IsHex(c) && IsHex(d)
    ensures Run(Config(Hex(key, 4), stack), [a, b, c, d]) == Config(Str(key), stack)
  {
    RunTwo(Config(Hex(key, 4), stack), a, b);
    RunTwo(Config(Hex(key, 2), stack), c, d);
    RunConcat(Config(Hex(key, 4), stack), [a, b], [c, d]);
    assert [a, b] + [c, d] == [a, b, c, d];
  }

  /** Inside a string, any escaped value leaves the recogniser where it was. */
  lemma {:induction false} EscapeKeepsString(key: bool, stack: seq<Frame>, s: string)
    ensures Run(Config(Str(key), stack), Escape(s)) == Config(Str(key), stack)
  {
    if s != [] {
      EscapeCharKeepsString(key, stack, s[0]);
      EscapeKeepsString(key, stack, s[1..]);
      RunConcat(Config(Str(key), stack), EscapeChar(s[0]), Escape(s[1..]));
    }
  }

  lemma {:induction false} PlainIsItsOwnEscape(s: string)
    requires forall i :: 0 <= i < |s| ==> IsPlain(s[i])
    ensures Escape(s) == s
  {
    if s != [] {
      PlainIsItsOwnEscape(s[1..]);
    }
  }

  predicate AllPlain(s: string) {
    forall i :: 0 <= i < |s| ==> IsPlain(s[i])
  }

  lemma ClockIsPlain(t: string)
    requires ClockShape(t)
    ensures AllPlain(t) && Escape(t) == t
  {
    forall i | 0 <= i < |t| ensures IsPlain(t[i]) {
      if i !in {2, 5, 8, 11, 12, 15} { assert IsDigit(t[i]); }
    }
    PlainIsItsOwnEscape(t);
  }

  lemma PlainKeepsString(key: bool, stack: seq<Frame>, s: string)
    requires AllPlain(s)
    ensures Run(Config(Str(key), stack), s) == Config(Str(key), stack)
  {
    PlainIsItsOwnEscape(s);
    EscapeKeepsString(key, stack, s);
  }

  lemma TwoDigitsFinishHex(key: bool, stack: seq<Frame>, left: nat, a: char, b: char, rest: string)
    requires IsDigit(a) && IsDigit(b) && AllPlain(rest) && left <= 2
    ensures Run(Config(Hex(key, left), stack), [a, b] + rest) == Config(Str(key), stack)
  {
    var k := Config(Hex(key, left), stack);
    RunTwo(k, a, b);
    RunConcat(k, [a, b], rest);
    PlainKeepsString(key, stack, rest);
  }

  /** A time may also finish a \u escape that lacks at most two digits: its month supplies them. */
  lemma ClockFinishesHex(key: bool, stack: seq<Frame>, left: nat, t: string)
    requires ClockShape(t) && left <= 2
    ensures Run(Config(Hex(key, left), stack), Escape(t)) == Config(Str(key), stack)
  {
    ClockIsPlain(t);
    assert IsDigit(t[0]) && IsDigit(t[1]);
    TwoDigitsFinishHex(key, stack, left, t[0], t[1], t[2..]);
    assert t == [t[0], t[1]] + t[2..];
  }

  // ---- a body, checked once ----

  /** Where the recogniser stands after a slot; a misplaced slot is fatal. */
  function AtSlot(k: Config, f: Field): Config {
    match k.lex
    case Str(_) => k
    case Hex(key, left) => if f.Time? && left <= 2 then Config(Str(key), k.stack) else DEAD
    case _ => DEAD
  }

  /** The recogniser run over a body alone, without any values. */
  function Place(segs: seq<Segment>, k: Config): Config
    decreases |segs|
  {
    if segs == [] then k
    else
      match segs[0]
      case Text(c) => Place(segs[1..], Feed(k, c))
      case Slot(f) => Place(segs[1..], AtSlot(k, f))
  }

  /** Every placeholder stands inside a string, and not in the middle of an escape. */
  predicate WellPlaced(t: string) {
    !Place(Segments(t), START).lex.Dead?
  }

  lemma {:induction false} PlaceDead(segs: seq<Segment>, k: Config)
    requires k.lex.Dead?
    ensures Place(segs, k).lex.Dead?
    decreases |segs|
  {
    if segs != [] {
      match segs[0]
      case Text(c) => PlaceDead(segs[1..], Feed(k, c));
      case Slot(f) => PlaceDead(segs[1..], AtSlot(k, f));
    }
  }

  lemma SlotRuns(k: Config, n: Note, f: Field)
    requires ClockShape(n.time) && !AtSlot(k, f).lex.Dead?
    ensures Run(k, Inserted(n, f, true)) == AtSlot(k, f)
  {
    match k.lex
    case Str(key) => EscapeKeepsString(key, k.stack, Value(n, f));
    case Hex(key, left) => ClockFinishesHex(key, k.stack, left, n.time);
    case _ =>
  }

  /** With every slot well placed, a rendered body and the bare one leave the recogniser together. */
  lemma {:induction false} RenderedRunsAsPlaced(segs: seq<Segment>, k: Config, n: Note)
    requires ClockShape(n.time) && !Place(segs, k).lex.Dead?
    ensures Run(k, Fill(segs, n, true)) == Place(segs, k)
    decreases |segs|
  {
    if segs != [] {
      var rest := Fill(segs[1..], n, true);
      match segs[0]
      case Text(c) =>
        assert ([c] + rest)[1..] == rest;
        RenderedRunsAsPlaced(segs[1..], Feed(k, c), n);
      case Slot(f) =>
        if AtSlot(k, f).lex.Dead? { PlaceDead(segs[1..], AtSlot(k, f)); }
        SlotRuns(k, n, f);
        RunConcat(k, Inserted(n, f, true), rest);
        RenderedRunsAsPlaced(segs[1..], AtSlot(k, f), n);
    }
  }

  /** Any two alerts, whatever their values, leave the recogniser in the same configuration, at
    * every point of the body. */
  lemma RenderingIsIndependentOfValues(t: string, at: nat, n: Note, m: Note)
    requires WellPlaced(t) && ClockShape(n.time) && ClockShape(m.time) && at <= |Segments(t)|
    ensures Run(START, Fill(Segments(t)[..at], n, true)) == Run(START, Fill(Segments(t)[..at], m, true))
  {
    PlacePrefix(Segments(t), at, START);
    RenderedRunsAsPlaced(Segments(t)[..at], START, n);
    RenderedRunsAsPlaced(Segments(t)[..at], START, m);
  }

  lemma {:induction false} PlacePrefix(segs: seq<Segment>, at: nat, k: Config)
    requires at <= |segs| && !Place(segs, k).lex.Dead?
    ensures !Place(segs[..at], k).lex.Dead?
    decreases at
  {
    if at == 0 {
      if k.lex.Dead? { PlaceDead(segs, k); }
    } else {
      assert segs[..at][1..] == segs[1..][..at - 1];
      match segs[0]
      case Text(c) => PlacePrefix(segs[1..], at - 1, Feed(k, c));
      case Slot(f) => PlacePrefix(segs[1..], at - 1, AtSlot(k, f));
    }
  }

  // ---- the other direction ----

  // Nothing outside a string can go on with such a character.
  predicate Foreign(c: char) {
    c == 'x' || c == 'o' || c > '~'
  }

  predicate Begins(s: string) {
    s != [] && Foreign(s[0])
  }

  /** An alert whose every value betrays a misplaced slot. */
  predicate Betrays(n: Note) {
    && ClockShape(n.time) && n.time[0] == '0' && n.time[1] == '1'
    && Begins(n.event) && Begins(n.node) && Begins(n.title) && Begins(n.message) && Begins(n.site)
  }

  const NEW_YEAR := "01-01 00:00 +00:00"

  /** The outage of a node named `x`, at a site named `x`. */
  function Betrayer(): Note { Outage("x", NEW_YEAR) }

  lemma BetrayerBetrays()
    ensures Betrays(Betrayer()) && Sendable(Betrayer())
  {
    NewYearIsAClock();
    OutageIsWritten("x", NEW_YEAR);
    assert "最后上报 "[0] > '~' && "🔴 x 离线"[0] > '~';
    assert ("最后上报 " + NEW_YEAR)[0] == "最后上报 "[0];
  }

  lemma NewYearIsAClock()
    ensures ClockShape(NEW_YEAR) && NEW_YEAR[0] == '0' && NEW_YEAR[1] == '1'
  {
  }

  /** Outside a string no text can go on with a foreign character. */
  lemma LetterKills(k: Config, c: char, s: string)
    requires Sane(k) && !k.lex.Str? && Foreign(c)
    ensures Run(k, [c] + s).lex.Dead?
  {
    assert ([c] + s)[1..] == s;
    if k.lex.Word? && k.lex.rest != [] {
      assert k.lex.rest[0] in "truefalsn";
    }
    assert Feed(k, c).lex.Dead?;
    DeadForever(Feed(k, c), s);
  }

  // Where a digit may stand outside a string, and what it leads to.
  predicate InNumber(lex: Lex, least: nat) {
    lex.Dead? || lex.Zero? || lex.Int? || lex.Frac? || lex.ExpDigits? || (lex.Hex? && lex.left >= least)
  }

  lemma FirstDigit(k: Config)
    requires Sane(k) && !k.lex.Str? && !(k.lex.Hex? && k.lex.left <= 2)
    ensures InNumber(Feed(k, '0').lex, 2)
  {
    if k.lex.Word? && k.lex.rest != [] {
      assert k.lex.rest[0] in "truefalsn";
    }
  }

  lemma SecondDigit(k: Config)
    requires InNumber(k.lex, 2)
    ensures InNumber(Feed(k, '1').lex, 1)
  {
  }

  lemma DashKills(k: Config)
    requires InNumber(k.lex, 1)
    ensures Feed(k, '-').lex.Dead?
  {
  }

  lemma DateKills(k: Config)
    requires Sane(k) && !k.lex.Str? && !(k.lex.Hex? && k.lex.left <= 2)
    ensures Feed(Feed(Feed(k, '0'), '1'), '-').lex.Dead?
  {
    FirstDigit(k);
    SecondDigit(Feed(k, '0'));
    DashKills(Feed(Feed(k, '0'), '1'));
  }

  lemma ClockKills(k: Config, t: string)
    requires Sane(k) && !k.lex.Str? && !(k.lex.Hex? && k.lex.left <= 2)
    requires |t| >= 3 && t[0] == '0' && t[1] == '1' && t[2] == '-'
    ensures Run(k, t).lex.Dead?
  {
    DateKills(k);
    RunThree(k, t[0], t[1], t[2], t[3..]);
    assert t == [t[0], t[1], t[2]] + t[3..];
    DeadForever(Feed(Feed(Feed(k, t[0]), t[1]), t[2]), t[3..]);
  }

  lemma RunThree(k: Config, a: char, b: char, c: char, rest: string)
    ensures Run(k, [a, b, c] + rest) == Run(Feed(Feed(Feed(k, a), b), c), rest)
  {
    JsonGrammar.RunCons(k, a, [b] + ([c] + rest));
    JsonGrammar.RunCons(Feed(k, a), b, [c] + rest);
    JsonGrammar.RunCons(Feed(Feed(k, a), b), c, rest);
    assert [a, b, c] + rest == [a] + ([b] + ([c] + rest));
  }

  lemma TextKills(k: Config, s: string)
    requires Sane(k) && !k.lex.Str? && Begins(s)
    ensures Run(k, Escape(s)).lex.Dead?
  {
    LetterKills(k, s[0], Escape(s[1..]));
  }

  lemma BetrayerKills(k: Config, f: Field, n: Note)
    requires Sane(k) && AtSlot(k, f).lex.Dead? && Betrays(n)
    ensures Run(k, Inserted(n, f, true)).lex.Dead?
  {
    if k.lex.Dead? {
      DeadForever(k, Inserted(n, f, true));
    } else if f.Time? {
      ClockIsPlain(n.time);
      ClockKills(k, n.time);
    } else {
      TextKills(k, Value(n, f));
    }
  }

  lemma {:induction false} BetrayerFindsMisplacedSlots(segs: seq<Segment>, k: Config, n: Note)
    requires Sane(k) && Betrays(n) && Accepting(Run(k, Fill(segs, n, true)))
    ensures Accepting(Place(segs, k))
    decreases |segs|
  {
    if segs != [] {
      var rest := Fill(segs[1..], n, true);
      match segs[0]
      case Text(c) =>
        assert ([c] + rest)[1..] == rest;
        FeedSane(k, c);
        BetrayerFindsMisplacedSlots(segs[1..], Feed(k, c), n);
      case Slot(f) =>
        RunConcat(k, Inserted(n, f, true), rest);
        if AtSlot(k, f).lex.Dead? {
          BetrayerKills(k, f, n);
          DeadForever(Run(k, Inserted(n, f, true)), rest);
        }
        SlotRuns(k, n, f);
        BetrayerFindsMisplacedSlots(segs[1..], AtSlot(k, f), n);
    }
  }

  // ---- the theorem ----

  predicate Passes(t: string, n: Note) {
    Accepts(Fill(Segments(t), n, true))
  }

  /**
   * A body renders to valid JSON for every alert if and only if it passes the one sample
   * check and every placeholder in it is well placed.
   */
  lemma ValidForEveryAlert(t: string, epoch: string)
    requires ClockShape(epoch)
    ensures (forall n :: Sendable(n) ==> Passes(t, n)) <==> Passes(t, Sample(epoch)) && WellPlaced(t)
  {
    BetrayerBetrays();
    if Passes(t, Sample(epoch)) && WellPlaced(t) {
      RenderedRunsAsPlaced(Segments(t), START, Sample(epoch));
      forall n | Sendable(n) ensures Passes(t, n) {
        RenderedRunsAsPlaced(Segments(t), START, n);
      }
    }
    if forall n :: Sendable(n) ==> Passes(t, n) {
      assert Passes(t, Betrayer());
      BetrayerFindsMisplacedSlots(Segments(t), START, Betrayer());
      RenderedRunsAsPlaced(Segments(t), START, Betrayer());
      RenderedRunsAsPlaced(Segments(t), START, Sample(epoch));
    }
  }

  ghost predicate IsJson(t: string, n: Note) {
    JsonGrammar.IsJson(Fill(Segments(t), n, true))
  }

  lemma PassesExactlyJson(t: string, n: Note)
    ensures Passes(t, n) <==> IsJson(t, n)
  {
    JsonParse.AcceptsExactlyJson(Fill(Segments(t), n, true));
  }

  /** The same, said of the grammar. */
  lemma JsonForEveryAlert(t: string, epoch: string)
    requires ClockShape(epoch)
    ensures (forall n :: Sendable(n) ==> IsJson(t, n)) <==> IsJson(t, Sample(epoch)) && WellPlaced(t)
  {
    ValidForEveryAlert(t, epoch);
    forall n ensures Passes(t, n) <==> IsJson(t, n) {
      PassesExactlyJson(t, n);
    }
  }

  const TRICKY: seq<Segment> := [Text('"'), Text('\\'), Slot(Event), Text('"')]

  lemma TrickyFilled(n: Note)
    ensures Fill(TRICKY, n, true) == ['"', '\\'] + Escape(n.event) + ['"']
  {
    FillNext(Text('"'), [], n);
    FillNext(Slot(Event), [Text('"')], n);
    FillNext(Text('\\'), [Slot(Event), Text('"')], n);
    FillNext(Text('"'), [Text('\\'), Slot(Event), Text('"')], n);
    assert TRICKY == [Text('"')] + ([Text('\\')] + ([Slot(Event)] + ([Text('"')] + [])));
    Wrapped(Escape(n.event));
  }

  lemma FillNext(seg: Segment, segs: seq<Segment>, n: Note)
    ensures Fill([seg] + segs, n, true)
         == (if seg.Text? then [seg.c] else Inserted(n, seg.field, true)) + Fill(segs, n, true)
  {
    assert ([seg] + segs)[1..] == segs;
  }

  lemma Wrapped(s: string)
    ensures ['"'] + (['\\'] + (s + (['"'] + []))) == ['"', '\\'] + s + ['"']
  {
  }

  lemma TrickyRuns(c: char, rest: string)
    requires AllPlain([c] + rest) && c != 'u'
    ensures Accepts(['"', '\\'] + Escape([c] + rest) + ['"']) <==> IsEscape(c)
  {
    var after := Feed(Config(Esc(false), []), c);
    PlainIsItsOwnEscape([c] + rest);
    Opening(c, rest);
    TrickyOpens(c, rest + ['"']);
    if IsEscape(c) {
      assert after == Config(Str(false), []);
      TrickyCloses(c, rest);
    } else {
      DeadForever(after, rest + ['"']);
    }
  }

  lemma TrickyOpens(c: char, tail: string)
    ensures Run(START, ['"', '\\'] + ([c] + tail)) == Run(Feed(Config(Esc(false), []), c), tail)
  {
    var esc := Config(Esc(false), []);
    RunTwo(START, '"', '\\');
    RunConcat(START, ['"', '\\'], [c] + tail);
    RunOne(esc, c);
    RunConcat(esc, [c], tail);
  }

  lemma Opening(c: char, rest: string)
    ensures ['"', '\\'] + ([c] + rest) + ['"'] == ['"', '\\'] + ([c] + (rest + ['"']))
  {
  }

  lemma TrickyCloses(c: char, rest: string)
    requires AllPlain([c] + rest)
    ensures Run(Config(Str(false), []), rest + ['"']) == Config(Done, [])
  {
    assert AllPlain(rest) by { assert ([c] + rest)[1..] == rest; }
    PlainKeepsString(false, [], rest);
    RunConcat(Config(Str(false), []), rest, ['"']);
    RunOne(Config(Str(false), []), '"');
  }

  lemma TrickyTemplate(body: string)
    requires body == ['"', '\\'] + "{{event}}" + ['"']
    ensures Segments(body) == TRICKY
  {
    assert body[1..] == ['\\'] + "{{event}}" + ['"'];
    assert body[1..][1..] == "{{event}}" + ['"'];
    assert ("{{event}}" + ['"'])[|"{{event}}"|..] == ['"'] && ['"'][1..] == [];
    assert Segments(['"']) == [Text('"')];
    assert Segments("{{event}}" + ['"']) == [Slot(Event), Text('"')];
  }

  /**
   * The sample check alone is not enough: a backslash before {{event}} turns the sample's
   * "test" into a tab and an outage's "offline" into a broken escape.
   */
  lemma SampleCheckAlone(body: string, epoch: string)
    requires body == ['"', '\\'] + "{{event}}" + ['"']
    ensures Passes(body, Sample(epoch)) && Sendable(Betrayer()) && !Passes(body, Betrayer())
  {
    TrickyTemplate(body);
    TestPasses(body, Sample(epoch));
    BetrayerBetrays();
    OutageIsWritten("x", NEW_YEAR);
    OfflineBreaks(body, Betrayer());
  }

  lemma TestPasses(body: string, n: Note)
    requires Segments(body) == TRICKY && n.event == "test"
    ensures Passes(body, n)
  {
    TrickyPassesExactly(body, n, 't', "est");
  }

  lemma OfflineBreaks(body: string, n: Note)
    requires Segments(body) == TRICKY && n.event == "offline"
    ensures !Passes(body, n)
  {
    TrickyPassesExactly(body, n, 'o', "ffline");
  }

  lemma TrickyPassesExactly(body: string, n: Note, c: char, rest: string)
    requires Segments(body) == TRICKY && n.event == [c] + rest && AllPlain([c] + rest) && c != 'u'
    ensures Passes(body, n) <==> IsEscape(c)
  {
    TrickyFilled(n);
    TrickyRuns(c, rest);
  }
}
