/** Which occurrences of a placeholder the renderer fills (server/src/notify.rs). */
module TemplateSlots {
  import opened Options
  import opened Template

  function Width(seg: Segment): nat {
    match seg
    case Text(_) => 1
    case Slot(f) => |Placeholder(f)|
  }

  /** A slot whose placeholder began at `p`. */
  predicate SlotAt(segs: seq<Segment>, p: nat, f: Field)
    decreases |segs|
  {
    segs != [] && (
      if p == 0 then segs[0] == Slot(f)
      else p >= Width(segs[0]) && SlotAt(segs[1..], p - Width(segs[0]), f))
  }

  /** How many braces open just before `p`. */
  function BracesBefore(t: string, p: nat): nat
    requires p <= |t|
  {
    if p > 0 && t[p - 1] == '{' then 1 + BracesBefore(t, p - 1) else 0
  }

  lemma PlaceholderShape(f: Field)
    ensures var s := Placeholder(f);
            && |s| >= 4 && s[0] == '{' && s[1] == '{' && s[|s| - 1] == '}'
            && forall k :: 2 <= k < |s| ==> s[k] != '{'
  {
  }

  lemma FieldStarts(s: string)
    ensures FieldAt(s).Some? ==> |s| >= 2 && s[0] == '{' && s[1] == '{'
  {
    if FieldAt(s).Some? {
      PlaceholderShape(FieldAt(s).value);
      assert s[..|Placeholder(FieldAt(s).value)|][1] == s[1];
    }
  }

  // No placeholder starts inside another.
  lemma InsidePlaceholder(s: string, f: Field, p: nat)
    requires StartsWith(s, Placeholder(f)) && 0 < p < |Placeholder(f)|
    ensures FieldAt(s[p..]) == None
  {
    var key := Placeholder(f);
    PlaceholderShape(f);
    FieldStarts(s[p..]);
    assert s[p] == key[p];
    assert p == 1 ==> s[p..][1] == s[2] == key[2];
  }

  lemma {:induction false} BracesFrom(t: string, start: nat, p: nat)
    requires start <= p <= |t|
    ensures BracesBefore(t, p) == BracesBefore(t[start..], p - start)
            + if BracesBefore(t[start..], p - start) == p - start then BracesBefore(t, start) else 0
    ensures BracesBefore(t[start..], p - start) <= p - start
    decreases p
  {
    if p > start {
      BracesFrom(t, start, p - 1);
    }
  }

  lemma SlotBehind(first: seq<Segment>, segs: seq<Segment>, p: nat, f: Field)
    requires |first| == 1 && p >= Width(first[0]) && Width(first[0]) > 0
    ensures SlotAt(first + segs, p, f) == SlotAt(segs, p - Width(first[0]), f)
  {
    assert (first + segs)[1..] == segs;
  }

  // Where a run of braces reaches back to the start, all of it is braces.
  lemma {:induction false} BracesDown(t: string, p: nat, k: nat)
    requires 1 <= k <= p <= |t| && BracesBefore(t, p) == p
    ensures t[k - 1] == '{'
    decreases p
  {
    if k < p {
      BracesDown(t, p - 1, k);
    }
  }

  predicate OpensWithBraces(s: string) {
    |s| >= 2 && s[0] == '{' && s[1] == '{'
  }

  /** What is to be shown, of a reading `segs` of `t` and any way to tell a field. */
  predicate Exact(fieldAt: string -> Option<Field>, segs: seq<Segment>, t: string, p: nat, f: Field)
    requires p < |t|
  {
    SlotAt(segs, p, f) <==> fieldAt(t[p..]) == Some(f) && BracesBefore(t, p) % 2 == 0
  }

  lemma AfterSlot(fieldAt: string -> Option<Field>, rest: seq<Segment>, t: string, g: Field, p: nat, f: Field)
    requires p < |t| && fieldAt(t) == Some(g) && 1 < |Placeholder(g)| <= |t| && t[|Placeholder(g)| - 1] != '{'
    requires forall q :: 0 < q < |Placeholder(g)| ==> fieldAt(t[q..]) == None
    requires var n := |Placeholder(g)|; p >= n ==> Exact(fieldAt, rest, t[n..], p - n, f)
    ensures Exact(fieldAt, [Slot(g)] + rest, t, p, f)
  {
    var n := |Placeholder(g)|;
    if p == 0 {
      assert t[0..] == t;
    } else if p >= n {
      SlotBehind([Slot(g)], rest, p, f);
      BracesFrom(t, n, p);
      assert t[n..][p - n..] == t[p..];
    }
  }

  lemma AfterText(fieldAt: string -> Option<Field>, rest: seq<Segment>, t: string, p: nat, f: Field)
    requires p < |t| && !OpensWithBraces(t)
    requires forall q :: 0 <= q < |t| && fieldAt(t[q..]).Some? ==> OpensWithBraces(t[q..])
    requires p > 0 ==> Exact(fieldAt, rest, t[1..], p - 1, f)
    ensures Exact(fieldAt, [Text(t[0])] + rest, t, p, f)
  {
    assert t[0..] == t;
    assert fieldAt(t[p..]).Some? ==> t[p] == '{';
    if p > 0 {
      SlotBehind([Text(t[0])], rest, p, f);
      BracesFrom(t, 1, p);
      assert t[1..][p - 1..] == t[p..];
      if BracesBefore(t[1..], p - 1) == p - 1 && p > 1 {
        BracesDown(t[1..], p - 1, 1);
      }
    }
  }

  lemma AfterBraces(fieldAt: string -> Option<Field>, rest: seq<Segment>, t: string, p: nat, f: Field)
    requires p < |t| && OpensWithBraces(t) && fieldAt(t) == None
    requires p >= 2 ==> Exact(fieldAt, rest, t[2..], p - 2, f)
    ensures Exact(fieldAt, [Text('{'), Text('{')] + rest, t, p, f)
  {
    assert t[0..] == t;
    BracesAreText(rest, p, f);
    if p > 1 {
      BehindBraces(t, p);
    }
  }

  lemma BehindBraces(t: string, p: nat)
    requires 2 <= p <= |t| && OpensWithBraces(t)
    ensures BracesBefore(t, p) % 2 == BracesBefore(t[2..], p - 2) % 2
    ensures t[2..][p - 2..] == t[p..]
  {
    BracesFrom(t, 2, p);
    assert BracesBefore(t, 1) == 1;
    assert BracesBefore(t, 2) == 2;
  }

  lemma BracesAreText(rest: seq<Segment>, p: nat, f: Field)
    ensures SlotAt([Text('{'), Text('{')] + rest, p, f) <==> p > 1 && SlotAt(rest, p - 2, f)
  {
    assert [Text('{'), Text('{')] + rest == [Text('{')] + ([Text('{')] + rest);
    if p > 0 {
      SlotBehind([Text('{')], [Text('{')] + rest, p, f);
    }
    if p > 1 {
      SlotBehind([Text('{')], rest, p - 1, f);
    }
  }

  lemma FieldsOpen(t: string, q: nat)
    requires q <= |t| && FieldAt(t[q..]).Some?
    ensures OpensWithBraces(t[q..])
  {
    FieldStarts(t[q..]);
  }

  lemma Braces(t: string)
    ensures StartsWith(t, "{{") <==> OpensWithBraces(t)
  {
    if OpensWithBraces(t) {
      assert t[..2] == "{{";
    }
    if StartsWith(t, "{{") {
      assert t[..2][0] == '{' && t[..2][1] == '{';
    }
  }

  lemma PlaceholderApart(t: string, g: Field)
    requires FieldAt(t) == Some(g)
    ensures var n := |Placeholder(g)|;
            && 1 < n <= |t| && t[n - 1] != '{' && OpensWithBraces(t)
            && forall q :: 0 < q < n ==> FieldAt(t[q..]) == None
  {
    PlaceholderShape(g);
    var n := |Placeholder(g)|;
    assert t[..n][n - 1] == Placeholder(g)[n - 1];
    FieldStarts(t);
    forall q | 0 < q < n ensures FieldAt(t[q..]) == None {
      InsidePlaceholder(t, g, q);
    }
  }

  /** How much of a text the first step of the reading takes. */
  function Taken(t: string): (n: nat)
    requires t != []
    ensures 1 <= n <= |t|
  {
    if !OpensWithBraces(t) then 1
    else match FieldAt(t)
      case Some(g) => |Placeholder(g)|
      case None => 2
  }

  lemma StepExactly(t: string, p: nat, f: Field)
    requires p < |t|
    requires var n := Taken(t); p >= n ==> Exact(FieldAt, Segments(t[n..]), t[n..], p - n, f)
    ensures Exact(FieldAt, Segments(t), t, p, f)
  {
    if !OpensWithBraces(t) {
      AtText(t, p, f);
    } else if FieldAt(t).Some? {
      AtSlot(t, FieldAt(t).value, p, f);
    } else {
      AtBraces(t, p, f);
    }
  }

  lemma {:induction false} ReadExactly(t: string, p: nat, f: Field)
    requires p < |t|
    ensures Exact(FieldAt, Segments(t), t, p, f)
    decreases |t|
  {
    var n := Taken(t);
    if p >= n {
      ReadExactly(t[n..], p - n, f);
    }
    StepExactly(t, p, f);
  }

  /** A placeholder in the template is filled exactly when an even number of braces
    * opens before it: two at a time are passed over as text. */
  lemma FilledExactly(t: string, p: nat, f: Field)
    requires p < |t|
    ensures SlotAt(Segments(t), p, f) <==> FieldAt(t[p..]) == Some(f) && BracesBefore(t, p) % 2 == 0
  {
    ReadExactly(t, p, f);
  }

  lemma AtBraces(t: string, p: nat, f: Field)
    requires p < |t| && OpensWithBraces(t) && FieldAt(t) == None
    requires p >= 2 ==> Exact(FieldAt, Segments(t[2..]), t[2..], p - 2, f)
    ensures Exact(FieldAt, Segments(t), t, p, f)
  {
    Braces(t);
    AfterBraces(FieldAt, Segments(t[2..]), t, p, f);
  }

  lemma AtSlot(t: string, g: Field, p: nat, f: Field)
    requires p < |t| && FieldAt(t) == Some(g) && OpensWithBraces(t)
    requires var n := |Placeholder(g)|; n <= p ==> Exact(FieldAt, Segments(t[n..]), t[n..], p - n, f)
    ensures Exact(FieldAt, Segments(t), t, p, f)
  {
    PlaceholderApart(t, g);
    Braces(t);
    AfterSlot(FieldAt, Segments(t[|Placeholder(g)|..]), t, g, p, f);
  }

  lemma AtText(t: string, p: nat, f: Field)
    requires p < |t| && !OpensWithBraces(t)
    requires p > 0 ==> Exact(FieldAt, Segments(t[1..]), t[1..], p - 1, f)
    ensures Exact(FieldAt, Segments(t), t, p, f)
  {
    forall q | 0 <= q < |t| && FieldAt(t[q..]).Some? ensures OpensWithBraces(t[q..]) {
      FieldsOpen(t, q);
    }
    Braces(t);
    AfterText(FieldAt, Segments(t[1..]), t, p, f);
  }
}
