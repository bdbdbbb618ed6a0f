/**
 * The template renderer of server/src/notify.rs and the check a webhook body must pass
 * before it is stored.
 */
module Template {
  import opened Options

  datatype Field = Event | Node | Title | Message | Site | Time

  function Placeholder(f: Field): string {
    match f
    case Event => "{{event}}"
    case Node => "{{node}}"
    case Title => "{{title}}"
    case Message => "{{message}}"
    case Site => "{{site}}"
    case Time => "{{time}}"
  }

  /** The values of one alert, its time already in words. */
  datatype Note = Note(event: string, node: string, title: string, message: string, site: string, time: string)

  function Value(n: Note, f: Field): string {
    match f
    case Event => n.event
    case Node => n.node
    case Title => n.title
    case Message => n.message
    case Site => n.site
    case Time => n.time
  }

  // ---- escaping ----

  const HEX_DIGITS: string := "0123456789abcdef"

  /** How a JSON serializer writes one character inside a string. */
  function EscapeChar(c: char): string {
    if c == '"' then ['\\', '"']
    else if c == '\\' then ['\\', '\\']
    else if c == 8 as char then ['\\', 'b']
    else if c == '\t' then ['\\', 't']
    else if c == '\n' then ['\\', 'n']
    else if c == 12 as char then ['\\', 'f']
    else if c == '\r' then ['\\', 'r']
    else if c < ' ' then ['\\', 'u', '0', '0', HEX_DIGITS[c as int / 16], HEX_DIGITS[c as int % 16]]
    else [c]
  }

  function Escape(s: string): string {
    if s == [] then [] else EscapeChar(s[0]) + Escape(s[1..])
  }

  function Inserted(n: Note, f: Field, json: bool): string {
    if json then Escape(Value(n, f)) else Value(n, f)
  }

  // ---- rendering ----

  predicate StartsWith(s: string, prefix: string) {
    |prefix| <= |s| && s[..|prefix|] == prefix
  }

  /** The placeholder a text starts with, if it is one of the six. */
  function FieldAt(s: string): (f: Option<Field>)
    ensures f.Some? ==> StartsWith(s, Placeholder(f.value))
    ensures f.None? <==> forall g :: !StartsWith(s, Placeholder(g))
  {
    if StartsWith(s, "{{event}}") then Some(Event)
    else if StartsWith(s, "{{node}}") then Some(Node)
    else if StartsWith(s, "{{title}}") then Some(Title)
    else if StartsWith(s, "{{message}}") then Some(Message)
    else if StartsWith(s, "{{site}}") then Some(Site)
    else if StartsWith(s, "{{time}}") then Some(Time)
    else None
  }

  datatype Segment = Text(c: char) | Slot(field: Field)

  /** A template read once, without any values. */
  function Segments(t: string): seq<Segment> {
    if t == [] then []
    else if StartsWith(t, "{{") then
      match FieldAt(t)
      case Some(f) => [Slot(f)] + Segments(t[|Placeholder(f)|..])
      case None => [Text('{'), Text('{')] + Segments(t[2..])
    else [Text(t[0])] + Segments(t[1..])
  }

  /** The values put in, each where its slot stands; nothing inserted is read again. */
  function Fill(segs: seq<Segment>, n: Note, json: bool): string {
    if segs == [] then []
    else
      (match segs[0]
       case Text(c) => [c]
       case Slot(f) => Inserted(n, f, json))
      + Fill(segs[1..], n, json)
  }

  /** Puts the placeholders back. */
  function Source(segs: seq<Segment>): string {
    if segs == [] then []
    else
      (match segs[0]
       case Text(c) => [c]
       case Slot(f) => Placeholder(f))
      + Source(segs[1..])
  }

  /** Reading a template loses nothing of it. */
  lemma {:induction false} SegmentsKeepTheTemplate(t: string)
    ensures Source(Segments(t)) == t
    decreases |t|
  {
    if t != [] {
      if StartsWith(t, "{{") {
        match FieldAt(t)
        case Some(f) =>
          SegmentsKeepTheTemplate(t[|Placeholder(f)|..]);
          assert t == Placeholder(f) + t[|Placeholder(f)|..];
        case None =>
          SegmentsKeepTheTemplate(t[2..]);
          SourceOfBraces(Segments(t[2..]));
          assert t == "{{" + t[2..];
      } else {
        SegmentsKeepTheTemplate(t[1..]);
      }
    }
  }

  lemma SourceOfBraces(segs: seq<Segment>)
    ensures Source([Text('{'), Text('{')] + segs) == "{{" + Source(segs)
  {
    assert ([Text('{'), Text('{')] + segs)[1..] == [Text('{')] + segs;
    assert ([Text('{')] + segs)[1..] == segs;
  }

  lemma FillOfBraces(segs: seq<Segment>, n: Note, json: bool)
    ensures Fill([Text('{'), Text('{')] + segs, n, json) == "{{" + Fill(segs, n, json)
  {
    assert ([Text('{'), Text('{')] + segs)[1..] == [Text('{')] + segs;
    assert ([Text('{')] + segs)[1..] == segs;
  }

  /** What the renderer does at two braces: fill a slot, or copy them. */
  lemma FillAtBraces(s: string, n: Note, json: bool)
    requires StartsWith(s, "{{")
    ensures match FieldAt(s)
            case Some(f) =>
              Fill(Segments(s), n, json) == Inserted(n, f, json) + Fill(Segments(s[|Placeholder(f)|..]), n, json)
            case None => Fill(Segments(s), n, json) == "{{" + Fill(Segments(s[2..]), n, json)
  {
    match FieldAt(s)
    case Some(f) => assert Segments(s)[1..] == Segments(s[|Placeholder(f)|..]);
    case None => FillOfBraces(Segments(s[2..]), n, json);
  }

  /** `at` is where the next two opening braces stand in `s`, or its end when there are none. */
  predicate NextBraces(s: string, found: bool, at: nat) {
    && at <= |s|
    && (if found then StartsWith(s[at..], "{{") else at == |s|)
    && forall i :: 0 <= i < at ==> !StartsWith(s[i..], "{{")
  }

  method Find(s: string) returns (found: bool, at: nat)
    ensures NextBraces(s, found, at)
  {
    at := 0;
    while at < |s|
      invariant at <= |s| && forall i :: 0 <= i < at ==> !StartsWith(s[i..], "{{")
    {
      if at + 1 < |s| && s[at] == '{' && s[at + 1] == '{' {
        assert s[at..][..2] == "{{";
        return true, at;
      }
      assert !StartsWith(s[at..], "{{") by {
        if |s[at..]| >= 2 { assert s[at..][..2][0] == s[at] && s[at..][..2][1] == s[at + 1]; }
      }
      at := at + 1;
    }
    found := false;
  }

  lemma FillAtText(s: string, n: Note, json: bool)
    requires s != [] && !StartsWith(s, "{{")
    ensures Fill(Segments(s), n, json) == [s[0]] + Fill(Segments(s[1..]), n, json)
  {
    assert Segments(s)[1..] == Segments(s[1..]);
  }

  /** A function that copies the first character wherever no braces open copies a whole such prefix. */
  lemma {:induction false} CopiesPrefix(f: string -> string, s: string, at: nat)
    requires forall t {:trigger f(t)} :: t != [] && !StartsWith(t, "{{") ==> f(t) == [t[0]] + f(t[1..])
    requires at <= |s| && forall i :: 0 <= i < at ==> !StartsWith(s[i..], "{{")
    ensures f(s) == s[..at] + f(s[at..])
  {
    if at == 0 {
      assert s[0..] == s;
    } else {
      CopiesPrefix(f, s, at - 1);
      var rest := s[at - 1..];
      assert rest[1..] == s[at..] && s[..at] == s[..at - 1] + [rest[0]];
    }
  }

  /** Text before the next braces is copied as it stands. */
  lemma PlainPrefix(s: string, at: nat, n: Note, json: bool)
    requires at <= |s| && forall i :: 0 <= i < at ==> !StartsWith(s[i..], "{{")
    ensures Fill(Segments(s), n, json) == s[..at] + Fill(Segments(s[at..]), n, json)
  {
    var f := (t: string) => Fill(Segments(t), n, json);
    forall t: string | t != [] && !StartsWith(t, "{{") ensures f(t) == [t[0]] + f(t[1..]) {
      FillAtText(t, n, json);
    }
    CopiesPrefix(f, s, at);
  }

  /** Rendering what is left completes what is out. */
  predicate Remains(out: string, rest: string, n: Note, json: bool, target: string) {
    out + Fill(Segments(rest), n, json) == target
  }

  lemma CopyText(out: string, rest: string, found: bool, at: nat, n: Note, json: bool, target: string)
    requires Remains(out, rest, n, json, target) && NextBraces(rest, found, at)
    ensures Remains(out + rest[..at], rest[at..], n, json, target)
  {
    PlainPrefix(rest, at, n, json);
    Regroup(out, rest[..at], Fill(Segments(rest[at..]), n, json));
  }

  lemma CopySlot(out: string, rest: string, n: Note, json: bool, target: string)
    requires Remains(out, rest, n, json, target) && StartsWith(rest, "{{")
    ensures match FieldAt(rest)
            case Some(f) => Remains(out + Inserted(n, f, json), rest[|Placeholder(f)|..], n, json, target)
            case None => Remains(out + "{{", rest[2..], n, json, target)
  {
    FillAtBraces(rest, n, json);
    match FieldAt(rest)
    case Some(f) => Regroup(out, Inserted(n, f, json), Fill(Segments(rest[|Placeholder(f)|..]), n, json));
    case None => Regroup(out, "{{", Fill(Segments(rest[2..]), n, json));
  }

  lemma Regroup(out: string, next: string, rest: string)
    ensures out + (next + rest) == (out + next) + rest
  {
  }

  /** The renderer: one pass over the template, each slot filled where it stands. */
  method Render(template: string, n: Note, json: bool) returns (out: string)
    ensures out == Fill(Segments(template), n, json)
  {
    out := [];
    var rest := template;
    var found, at := Find(rest);
    ghost var target := Fill(Segments(template), n, json);
    while found
      invariant Remains(out, rest, n, json, target)
      invariant NextBraces(rest, found, at)
      decreases |rest|
    {
      CopyText(out, rest, found, at, n, json, target);
      out, rest := out + rest[..at], rest[at..];
      CopySlot(out, rest, n, json, target);
      match FieldAt(rest) {
        case Some(f) => out, rest := out + Inserted(n, f, json), rest[|Placeholder(f)|..];
        case None => out, rest := out + "{{", rest[2..];
      }
      found, at := Find(rest);
    }
    CopyText(out, rest, found, at, n, json, target);
    assert rest[|rest|..] == [] && rest[..|rest|] == rest;
    out := out + rest;
  }
}
