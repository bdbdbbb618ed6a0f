/**
 * Which value each placeholder of a template receives (server/src/notify.rs, render), alone
 * and within any template, as it stands and inside a JSON string.
 */
module TemplateValues {
  import opened Options
  import opened Template
  import opened TemplateSlots

  // ---- reading a JSON string, section 7 of RFC 8259 ----

  function HexValue(c: char): (v: Option<nat>)
    ensures v.Some? ==> v.value < 16
  {
    if '0' <= c <= '9' then Some(c as int - '0' as int)
    else if 'a' <= c <= 'f' then Some(c as int - 'a' as int + 10)
    else if 'A' <= c <= 'F' then Some(c as int - 'A' as int + 10)
    else None
  }

  /** The sixteen bits behind a `\u`. */
  function Unit(s: string): (u: Option<nat>)
    ensures u.Some? ==> |s| >= 4 && u.value < 0x1_0000
  {
    if |s| >= 4 && HexValue(s[0]).Some? && HexValue(s[1]).Some? && HexValue(s[2]).Some? && HexValue(s[3]).Some?
    then Some(((HexValue(s[0]).value * 16 + HexValue(s[1]).value) * 16
               + HexValue(s[2]).value) * 16 + HexValue(s[3]).value)
    else None
  }

  function Short(c: char): Option<char> {
    if c == '"' || c == '\\' || c == '/' then Some(c)
    else if c == 'b' then Some(8 as char)
    else if c == 'f' then Some(12 as char)
    else if c == 'n' then Some('\n')
    else if c == 'r' then Some('\r')
    else if c == 't' then Some('\t')
    else None
  }

  /** A character beyond the first plane is written as two units. */
  function Pair(s: string): (c: Option<char>)
    ensures c.Some? ==> |s| >= 12
  {
    if |s| >= 12 && s[6] == '\\' && s[7] == 'u' && Unit(s[2..]).Some? && Unit(s[8..]).Some?
       && 0xD800 <= Unit(s[2..]).value < 0xDC00 && 0xDC00 <= Unit(s[8..]).value < 0xE000
    then Some((0x1_0000 + (Unit(s[2..]).value - 0xD800) * 0x400 + (Unit(s[8..]).value - 0xDC00)) as char)
    else None
  }

  function After(c: char, rest: Option<string>): Option<string> {
    if rest.Some? then Some([c] + rest.value) else None
  }

  /** What the text between the quotes of a JSON string stands for, if it is one. */
  function Decode(s: string): Option<string> {
    if s == [] then Some([])
    else if s[0] == '\\' then
      if |s| == 1 then None
      else if s[1] == 'u' then
        if Unit(s[2..]).None? then None
        else if Pair(s).Some? then After(Pair(s).value, Decode(s[12..]))
        else if 0xD800 <= Unit(s[2..]).value < 0xE000 then None
        else After(Unit(s[2..]).value as char, Decode(s[6..]))
      else if Short(s[1]).None? then None
      else After(Short(s[1]).value, Decode(s[2..]))
    else if s[0] == '"' || s[0] < ' ' then None
    else After(s[0], Decode(s[1..]))
  }

  lemma DecodeShort(a: char, c: char, rest: string)
    requires Short(a) == Some(c)
    ensures Decode(['\\', a] + rest) == After(c, Decode(rest))
  {
    assert (['\\', a] + rest)[2..] == rest;
  }

  lemma DecodeCode(a: char, b: char, rest: string)
    requires HexValue(a).Some? && HexValue(b).Some?
    ensures Decode(['\\', 'u', '0', '0', a, b] + rest)
         == After((HexValue(a).value * 16 + HexValue(b).value) as char, Decode(rest))
  {
    var s := ['\\', 'u', '0', '0', a, b] + rest;
    assert s[6..] == rest && s[2..][0] == '0' && s[2..][1] == '0' && s[2..][2] == a && s[2..][3] == b;
  }

  lemma HexDigitValue(d: nat)
    requires d < 16
    ensures HexValue(HEX_DIGITS[d]) == Some(d)
  {
  }

  /** An escaped character reads back as itself. */
  lemma CharReadsBack(c: char, rest: string)
    ensures Decode(EscapeChar(c) + rest) == After(c, Decode(rest))
  {
    if c == '"' {
      DecodeShort('"', c, rest);
    } else if c == '\\' {
      DecodeShort('\\', c, rest);
    } else if c == 8 as char {
      DecodeShort('b', c, rest);
    } else if c == '\t' {
      DecodeShort('t', c, rest);
    } else if c == '\n' {
      DecodeShort('n', c, rest);
    } else if c == 12 as char {
      DecodeShort('f', c, rest);
    } else if c == '\r' {
      DecodeShort('r', c, rest);
    } else if c < ' ' {
      HexDigitValue(c as int / 16);
      HexDigitValue(c as int % 16);
      DecodeCode(HEX_DIGITS[c as int / 16], HEX_DIGITS[c as int % 16], rest);
    } else {
      assert ([c] + rest)[1..] == rest;
    }
  }

  /** An escaped text inside a JSON string stands for the text. */
  lemma {:induction false} EscapedReadsBack(s: string)
    ensures Decode(Escape(s)) == Some(s)
  {
    if s != [] {
      EscapedReadsBack(s[1..]);
      CharReadsBack(s[0], Escape(s[1..]));
      assert [s[0]] + s[1..] == s;
    }
  }

  // ---- one placeholder ----

  function Rendered(t: string, n: Note, json: bool): string {
    Fill(Segments(t), n, json)
  }

  lemma ReadsItself(f: Field)
    ensures Segments(Placeholder(f)) == [Slot(f)]
  {
    var t := Placeholder(f);
    PlaceholderShape(f);
    Braces(t);
    assert t[..|t|] == t && FieldAt(t).Some?;
    OneField(t, f, FieldAt(t).value);
    assert t[|t|..] == [];
  }

  /** Two placeholders never stand at the same place. */
  lemma OneField(t: string, f: Field, g: Field)
    requires StartsWith(t, Placeholder(f)) && StartsWith(t, Placeholder(g))
    ensures f == g
  {
    assert t[2] == t[..|Placeholder(f)|][2] == t[..|Placeholder(g)|][2];
    assert t[4] == t[..|Placeholder(f)|][4] == t[..|Placeholder(g)|][4];
  }

  lemma AloneIsInserted(f: Field, n: Note, json: bool)
    ensures Rendered(Placeholder(f), n, json) == Inserted(n, f, json)
  {
    ReadsItself(f);
    assert [Slot(f)][1..] == [];
    assert Fill([], n, json) == [];
  }

  /** Each placeholder gives the value of its own name. */
  lemma EachGivesItsOwn(n: Note)
    ensures Rendered("{{event}}", n, false) == n.event
    ensures Rendered("{{node}}", n, false) == n.node
    ensures Rendered("{{title}}", n, false) == n.title
    ensures Rendered("{{message}}", n, false) == n.message
    ensures Rendered("{{site}}", n, false) == n.site
    ensures Rendered("{{time}}", n, false) == n.time
  {
    forall f: Field ensures Rendered(Placeholder(f), n, false) == Value(n, f) {
      AloneIsInserted(f, n, false);
    }
    assert Placeholder(Event) == "{{event}}" && Placeholder(Node) == "{{node}}" && Placeholder(Title) == "{{title}}";
    assert Placeholder(Message) == "{{message}}" && Placeholder(Site) == "{{site}}" && Placeholder(Time) == "{{time}}";
  }

  /** Inside a JSON string it stands for that value. */
  lemma EachStandsForItsOwn(n: Note)
    ensures Decode(Rendered("{{event}}", n, true)) == Some(n.event)
    ensures Decode(Rendered("{{node}}", n, true)) == Some(n.node)
    ensures Decode(Rendered("{{title}}", n, true)) == Some(n.title)
    ensures Decode(Rendered("{{message}}", n, true)) == Some(n.message)
    ensures Decode(Rendered("{{site}}", n, true)) == Some(n.site)
    ensures Decode(Rendered("{{time}}", n, true)) == Some(n.time)
  {
    forall f: Field ensures Decode(Rendered(Placeholder(f), n, true)) == Some(Value(n, f)) {
      AloneIsInserted(f, n, true);
      EscapedReadsBack(Value(n, f));
    }
    assert Placeholder(Event) == "{{event}}" && Placeholder(Node) == "{{node}}" && Placeholder(Title) == "{{title}}";
    assert Placeholder(Message) == "{{message}}" && Placeholder(Site) == "{{site}}" && Placeholder(Time) == "{{time}}";
  }
  // ---- a whole template ----

  lemma {:induction false} FillJoins(a: seq<Segment>, b: seq<Segment>, n: Note, json: bool)
    ensures Fill(a + b, n, json) == Fill(a, n, json) + Fill(b, n, json)
  {
    if a == [] {
      assert a + b == b;
    } else {
      FillJoins(a[1..], b, n, json);
      assert (a + b)[1..] == a[1..] + b;
    }
  }

  // How a text is read depends on no more of it than is read.
  lemma SameStart(t: string, p: nat)
    requires p <= |t| && t != [] && Taken(t) <= p
    ensures OpensWithBraces(t[..p]) == OpensWithBraces(t)
    ensures OpensWithBraces(t) ==> FieldAt(t[..p]) == FieldAt(t)
  {
    forall f: Field
      ensures StartsWith(t[..p], Placeholder(f)) <==> |Placeholder(f)| <= p && StartsWith(t, Placeholder(f))
    {
      if |Placeholder(f)| <= p { assert t[..p][..|Placeholder(f)|] == t[..|Placeholder(f)|]; }
    }
    if OpensWithBraces(t) && FieldAt(t).Some? {
      assert StartsWith(t[..p], Placeholder(FieldAt(t).value));
      OneField(t, FieldAt(t).value, FieldAt(t[..p]).value);
    }
  }

  // What the first step of the reading makes of a text.
  function Head(t: string): seq<Segment>
    requires t != []
  {
    if !OpensWithBraces(t) then [Text(t[0])]
    else match FieldAt(t)
      case Some(g) => [Slot(g)]
      case None => [Text('{'), Text('{')]
  }

  lemma ReadsOn(t: string)
    requires t != []
    ensures Segments(t) == Head(t) + Segments(t[Taken(t)..])
  {
    Braces(t);
  }

  // A head of the given width: one segment, or two braces.
  predicate HeadOf(head: seq<Segment>, n: nat) {
    (|head| == 1 && Width(head[0]) == n) || (head == [Text('{'), Text('{')] && n == 2)
  }

  lemma HeadIsTaken(t: string)
    requires t != []
    ensures HeadOf(Head(t), Taken(t))
  {
  }

  lemma BehindHead(head: seq<Segment>, rest: seq<Segment>, n: nat, p: nat, f: Field)
    requires HeadOf(head, n) && 0 < n && 0 < p && SlotAt(head + rest, p, f)
    ensures p >= n && SlotAt(rest, p - n, f)
  {
    if |head| == 1 {
      assert p >= Width((head + rest)[0]);
      SlotBehind(head, rest, p, f);
    } else {
      BracesAreText(rest, p, f);
    }
  }

  // The claim below.
  predicate Parts(t: string, p: nat, f: Field, width: nat) {
    && p + width <= |t|
    && Segments(t) == Segments(t[..p]) + ([Slot(f)] + Segments(t[p + width..]))
  }

  lemma PartsAtStart(t: string, f: Field)
    requires t != [] && SlotAt(Segments(t), 0, f)
    ensures Parts(t, 0, f, |Placeholder(f)|)
  {
    FilledExactly(t, 0, f);
    assert t[0..] == t && t[..0] == [];
    FieldStarts(t);
    ReadsOn(t);
    assert [] + ([Slot(f)] + Segments(t[|Placeholder(f)|..])) == [Slot(f)] + Segments(t[|Placeholder(f)|..]);
  }

  lemma PrefixReadsOn(t: string, n: nat, p: nat)
    requires t != [] && n == Taken(t) <= p <= |t|
    ensures Segments(t[..p]) == Head(t) + Segments(t[n..][..p - n])
  {
    SameStart(t, p);
    assert t[..p] != [];
    ReadsOn(t[..p]);
    assert t[..p][n..] == t[n..][..p - n];
  }

  lemma PartsBehind(t: string, n: nat, p: nat, f: Field, width: nat)
    requires t != [] && n == Taken(t) <= p && Parts(t[n..], p - n, f, width)
    ensures Parts(t, p, f, width)
  {
    var rest := t[n..];
    ReadsOn(t);
    PrefixReadsOn(t, n, p);
    assert rest[p - n + width..] == t[p + width..];
    Regrouped(Head(t), Segments(rest[..p - n]), [Slot(f)] + Segments(t[p + width..]));
  }

  /** A filled slot parts the reading of a template in two. */
  lemma {:induction false} SlotParts(t: string, p: nat, f: Field)
    requires p < |t| && SlotAt(Segments(t), p, f)
    ensures Parts(t, p, f, |Placeholder(f)|)
    decreases |t|
  {
    if p == 0 {
      PartsAtStart(t, f);
    } else {
      var n := Taken(t);
      ReadsOn(t);
      HeadIsTaken(t);
      BehindHead(Head(t), Segments(t[n..]), n, p, f);
      SlotParts(t[n..], p - n, f);
      PartsBehind(t, n, p, f, |Placeholder(f)|);
    }
  }

  lemma Regrouped(a: seq<Segment>, b: seq<Segment>, c: seq<Segment>)
    ensures a + (b + c) == (a + b) + c
  {
  }

  /**
   * Within any template, each placeholder with an even number of braces open before it gives
   * what it gives alone, between what the text before it and the text behind it give.
   */
  lemma SlotGetsItsValue(t: string, p: nat, f: Field, n: Note, json: bool)
    requires p < |t| && FieldAt(t[p..]) == Some(f) && BracesBefore(t, p) % 2 == 0
    ensures p + |Placeholder(f)| <= |t|
    ensures Rendered(t, n, json)
         == Rendered(t[..p], n, json) + Rendered(Placeholder(f), n, json)
            + Rendered(t[p + |Placeholder(f)|..], n, json)
  {
    FilledExactly(t, p, f);
    SlotParts(t, p, f);
    var before, after := Segments(t[..p]), Segments(t[p + |Placeholder(f)|..]);
    FillJoins(before, [Slot(f)] + after, n, json);
    FillJoins([Slot(f)], after, n, json);
    ReadsItself(f);
  }

  lemma {:induction false} NoSlotsFillNothing(segs: seq<Segment>, n: Note, json: bool)
    requires forall p: nat, f: Field :: p < |Source(segs)| ==> !SlotAt(segs, p, f)
    ensures Fill(segs, n, json) == Source(segs)
  {
    if segs != [] {
      match segs[0]
      case Slot(f) =>
        PlaceholderShape(f);
        assert SlotAt(segs, 0, f);
      case Text(_) =>
        forall p: nat, f: Field | p < |Source(segs[1..])| ensures !SlotAt(segs[1..], p, f) {
          assert !SlotAt(segs, p + 1, f);
        }
        NoSlotsFillNothing(segs[1..], n, json);
    }
  }

  /** A text without such a placeholder comes out as it is. */
  lemma TextIsCopied(t: string, n: Note, json: bool)
    requires forall p: nat :: p < |t| && FieldAt(t[p..]).Some? ==> BracesBefore(t, p) % 2 != 0
    ensures Rendered(t, n, json) == t
  {
    SegmentsKeepTheTemplate(t);
    forall p: nat, f: Field | p < |t| ensures !SlotAt(Segments(t), p, f) {
      FilledExactly(t, p, f);
    }
    NoSlotsFillNothing(Segments(t), n, json);
  }
  lemma FieldFirst(f: Field, rest: string)
    ensures var t := Placeholder(f) + rest;
            FieldAt(t) == Some(f) && t[|Placeholder(f)|..] == rest && t[0..] == t && t[..0] == []
  {
    var t, key := Placeholder(f) + rest, Placeholder(f);
    assert t[..|key|] == key;
    OneField(t, f, FieldAt(t).value);
  }

  lemma SlotAtStart(t: string, f: Field, rest: string, n: Note)
    requires t != [] && |Placeholder(f)| <= |t|
    requires FieldAt(t) == Some(f) && t[|Placeholder(f)|..] == rest && t[0..] == t && t[..0] == []
    ensures Rendered(t, n, false) == Value(n, f) + Rendered(rest, n, false)
  {
    SlotGetsItsValue(t, 0, f, n, false);
    AloneIsInserted(f, n, false);
    assert Rendered([], n, false) == [];
  }

  lemma SlotFirst(f: Field, rest: string, n: Note)
    ensures Rendered(Placeholder(f) + rest, n, false) == Value(n, f) + Rendered(rest, n, false)
  {
    PlaceholderShape(f);
    FieldFirst(f, rest);
    SlotAtStart(Placeholder(f) + rest, f, rest, n);
  }

  lemma LineBreakFirst(rest: string, n: Note)
    ensures Rendered(['\n'] + rest, n, false) == ['\n'] + Rendered(rest, n, false)
  {
    var t := ['\n'] + rest;
    Braces(t);
    FillAtText(t, n, false);
    assert t[1..] == rest;
  }

  lemma TwoLines(first: Field, second: Field, n: Note)
    ensures Rendered(Placeholder(first) + (['\n'] + Placeholder(second)), n, false)
         == Value(n, first) + (['\n'] + Value(n, second))
  {
    SlotFirst(first, ['\n'] + Placeholder(second), n);
    LineBreakFirst(Placeholder(second), n);
    AloneIsInserted(second, n, false);
  }

  const DEFAULT_TEXT: string := "{{title}}\n{{message}}"

  lemma DefaultTextParts()
    ensures DEFAULT_TEXT == Placeholder(Title) + (['\n'] + Placeholder(Message))
  {
  }

  /** The text an alert has when none is stored: its title, and its message on a line of its own. */
  lemma DefaultTextReads(n: Note)
    ensures Rendered(DEFAULT_TEXT, n, false) == n.title + ['\n'] + n.message
  {
    DefaultTextParts();
    TwoLines(Title, Message, n);
    assert n.title + (['\n'] + n.message) == n.title + ['\n'] + n.message;
  }
}
