/**
 * The base64 encoder of the content security policy hashes
 * (server/src/frontend.rs), against the decoder of section 4 of RFC 4648.
 */
module Base64 {
  import opened Options

  type Byte = b: int | 0 <= b < 256

  function Smaller(a: nat, b: nat): nat { if a < b then a else b }

  // `n >> (18 - 6 * i) & 0x3f` on the 24 bits of a group.
  function Sextet(n: nat, i: nat): (v: nat)
    requires i < 4
    ensures v < 64
  {
    if i == 0 then n / 262144 % 64 else if i == 1 then n / 4096 % 64 else if i == 2 then n / 64 % 64 else n % 64
  }

  function Octet(chunk: seq<Byte>, i: nat): (b: nat)
    ensures b < 256
  {
    if i < |chunk| then chunk[i] else 0
  }

  function Packed(chunk: seq<Byte>): (n: nat)
    requires 1 <= |chunk| <= 3
    ensures n < 16777216
  {
    Octet(chunk, 0) * 65536 + Octet(chunk, 1) * 256 + Octet(chunk, 2)
  }

  function Symbol(v: nat): char
    requires v < 64
  {
    if v < 26 then 'A' + v as char
    else if v < 52 then 'a' + (v - 26) as char
    else if v < 62 then '0' + (v - 52) as char
    else if v == 62 then '+' else '/'
  }

  function GroupChar(chunk: seq<Byte>, i: nat): char
    requires 1 <= |chunk| <= 3 && i < 4
  {
    if i <= |chunk| then Symbol(Sextet(Packed(chunk), i)) else '='
  }

  function Group(chunk: seq<Byte>): string
    requires 1 <= |chunk| <= 3
  {
    [GroupChar(chunk, 0), GroupChar(chunk, 1), GroupChar(chunk, 2), GroupChar(chunk, 3)]
  }

  function Encoded(bytes: seq<Byte>): string {
    if bytes == [] then []
    else var k := Smaller(3, |bytes|); Group(bytes[..k]) + Encoded(bytes[k..])
  }

  method EncodeChunk(chunk: seq<Byte>) returns (out: string)
    requires 1 <= |chunk| <= 3
    ensures out == Group(chunk)
  {
    var n := Packed(chunk);
    out := [];
    for i := 0 to 4
      invariant out == Group(chunk)[..i]
    {
      if i <= |chunk| {
        out := out + [Symbol(Sextet(n, i))];
      } else {
        out := out + ['='];
      }
    }
  }

  lemma EncodedStep(bytes: seq<Byte>, at: nat)
    requires at < |bytes|
    ensures var next := at + Smaller(3, |bytes| - at);
            Encoded(bytes[at..]) == Group(bytes[at..next]) + Encoded(bytes[next..])
  {
    var k := Smaller(3, |bytes| - at);
    assert bytes[at..][..k] == bytes[at..at + k] && bytes[at..][k..] == bytes[at + k..];
  }

  // What is out, with the encoding of the bytes from `at` on, is the whole.
  ghost predicate Completes(out: string, bytes: seq<Byte>, at: nat) {
    at <= |bytes| && out + Encoded(bytes[at..]) == Encoded(bytes)
  }

  lemma Begins(bytes: seq<Byte>)
    ensures Completes([], bytes, 0)
  {
    assert bytes[0..] == bytes;
  }

  lemma Advance(out: string, bytes: seq<Byte>, at: nat)
    requires Completes(out, bytes, at) && at < |bytes|
    ensures var next := at + Smaller(3, |bytes| - at);
            Completes(out + Group(bytes[at..next]), bytes, next)
  {
    var next := at + Smaller(3, |bytes| - at);
    EncodedStep(bytes, at);
    var group, rest := Group(bytes[at..next]), Encoded(bytes[next..]);
    assert (out + group) + rest == out + (group + rest);
  }

  lemma Ends(out: string, bytes: seq<Byte>)
    requires Completes(out, bytes, |bytes|)
    ensures out == Encoded(bytes)
  {
    assert bytes[|bytes|..] == [];
  }

  method Encode(bytes: seq<Byte>) returns (out: string)
    ensures out == Encoded(bytes)
  {
    out := [];
    var at := 0;
    Begins(bytes);
    while at < |bytes|
      invariant Completes(out, bytes, at)
    {
      var chunk := bytes[at..at + Smaller(3, |bytes| - at)];
      var group := EncodeChunk(chunk);
      Advance(out, bytes, at);
      out := out + group;
      at := at + |chunk|;
    }
    Ends(out, bytes);
  }

  // ------------------------------------------------------------ the decoder

  function Value(c: char): Option<nat> {
    if 'A' <= c <= 'Z' then Some(c as int - 'A' as int)
    else if 'a' <= c <= 'z' then Some(c as int - 'a' as int + 26)
    else if '0' <= c <= '9' then Some(c as int - '0' as int + 52)
    else if c == '+' then Some(62)
    else if c == '/' then Some(63)
    else None
  }

  /** One quantum. Padding is allowed where `last` says so, and the bits it leaves
    * over must be zero (section 3.5). */
  function Quantum(s: string, last: bool): Option<seq<Byte>>
    requires |s| == 4
  {
    match (Value(s[0]), Value(s[1]), Value(s[2]), Value(s[3]))
    case (Some(a), Some(b), Some(c), Some(d)) =>
      Some([a * 4 + b / 16, b % 16 * 16 + c / 4, c % 4 * 64 + d])
    case (Some(a), Some(b), Some(c), None) =>
      if last && s[3] == '=' && c % 4 == 0 then Some([a * 4 + b / 16, b % 16 * 16 + c / 4]) else None
    case (Some(a), Some(b), None, None) =>
      if last && s[2] == '=' && s[3] == '=' && b % 16 == 0 then Some([a * 4 + b / 16]) else None
    case _ => None
  }

  function Decoded(s: string): Option<seq<Byte>> {
    if s == [] then Some([])
    else if |s| < 4 then None
    else match (Quantum(s[..4], |s| == 4), Decoded(s[4..]))
      case (Some(head), Some(tail)) => Some(head + tail)
      case _ => None
  }

  lemma SymbolValue(v: nat)
    requires v < 64
    ensures Value(Symbol(v)) == Some(v)
  {
  }

  lemma ValueSymbol(c: char)
    ensures match Value(c) case Some(v) => v < 64 && Symbol(v) == c case None => true
  {
    match Value(c)
    case Some(v) => SymbolValue(v);
    case None =>
  }

  lemma DivMod(q: nat, r: nat, d: nat)
    requires r < d && (d == 64 || d == 4096 || d == 262144)
    ensures (d * q + r) / d == q && (d * q + r) % d == r
  {
    if d == 64 {
      assert (64 * q + r) / 64 == q;
    } else if d == 4096 {
      assert (4096 * q + r) / 4096 == q;
    } else {
      assert (262144 * q + r) / 262144 == q;
    }
  }

  lemma UpperFields(x: nat, y: nat, z: nat)
    requires x < 256 && y < 256 && z < 256
    ensures var n := x * 65536 + y * 256 + z;
            n / 262144 % 64 == x / 4 && n / 4096 % 64 == x % 4 * 16 + y / 16
  {
    var n := x * 65536 + y * 256 + z;
    DivMod(x / 4, x % 4 * 65536 + y * 256 + z, 262144);
    DivMod(x * 16 + y / 16, y % 16 * 256 + z, 4096);
    DivMod(x / 4, x % 4 * 16 + y / 16, 64);
    assert n == 262144 * (x / 4) + (x % 4 * 65536 + y * 256 + z);
    assert n == 4096 * (x * 16 + y / 16) + (y % 16 * 256 + z);
    assert x * 16 + y / 16 == 64 * (x / 4) + (x % 4 * 16 + y / 16);
  }

  lemma LowerFields(x: nat, y: nat, z: nat)
    requires x < 256 && y < 256 && z < 256
    ensures var n := x * 65536 + y * 256 + z;
            n / 64 % 64 == y % 16 * 4 + z / 64 && n % 64 == z % 64
  {
    var n := x * 65536 + y * 256 + z;
    DivMod(x * 1024 + y * 4 + z / 64, z % 64, 64);
    DivMod(x * 16 + y / 16, y % 16 * 4 + z / 64, 64);
    assert n == 64 * (x * 1024 + y * 4 + z / 64) + z % 64;
    assert x * 1024 + y * 4 + z / 64 == 64 * (x * 16 + y / 16) + (y % 16 * 4 + z / 64);
  }

  lemma Fields(x: nat, y: nat, z: nat)
    requires x < 256 && y < 256 && z < 256
    ensures var n := x * 65536 + y * 256 + z;
            && n / 262144 % 64 == x / 4 && n / 4096 % 64 == x % 4 * 16 + y / 16
            && n / 64 % 64 == y % 16 * 4 + z / 64 && n % 64 == z % 64
  {
    UpperFields(x, y, z);
    LowerFields(x, y, z);
  }

  lemma OctetFields(x: nat, y: nat, z: nat)
    requires x < 256 && y < 256 && z < 256
    ensures var a, b, c, d := x / 4, x % 4 * 16 + y / 16, y % 16 * 4 + z / 64, z % 64;
            a * 4 + b / 16 == x && b % 16 * 16 + c / 4 == y && c % 4 * 64 + d == z
  {
  }

  lemma FieldOctets(a: nat, b: nat, c: nat, d: nat)
    requires a < 64 && b < 64 && c < 64 && d < 64
    ensures var x, y, z := a * 4 + b / 16, b % 16 * 16 + c / 4, c % 4 * 64 + d;
            && x < 256 && y < 256 && z < 256
            && x / 4 == a && x % 4 * 16 + y / 16 == b && y % 16 * 4 + z / 64 == c && z % 64 == d
  {
  }

  // The four 6-bit fields of a chunk and its octets determine each other.
  lemma Sextets(chunk: seq<Byte>)
    requires 1 <= |chunk| <= 3
    ensures var n := Packed(chunk);
            var a, b, c, d := Sextet(n, 0), Sextet(n, 1), Sextet(n, 2), Sextet(n, 3);
            && Octet(chunk, 0) == a * 4 + b / 16
            && Octet(chunk, 1) == b % 16 * 16 + c / 4
            && Octet(chunk, 2) == c % 4 * 64 + d
  {
    Fields(Octet(chunk, 0), Octet(chunk, 1), Octet(chunk, 2));
    OctetFields(Octet(chunk, 0), Octet(chunk, 1), Octet(chunk, 2));
  }

  lemma SextetsOf(chunk: seq<Byte>, a: nat, b: nat, c: nat, d: nat)
    requires 1 <= |chunk| <= 3 && a < 64 && b < 64 && c < 64 && d < 64
    requires Octet(chunk, 0) == a * 4 + b / 16
    requires Octet(chunk, 1) == b % 16 * 16 + c / 4
    requires Octet(chunk, 2) == c % 4 * 64 + d
    ensures var n := Packed(chunk);
            Sextet(n, 0) == a && Sextet(n, 1) == b && Sextet(n, 2) == c && Sextet(n, 3) == d
  {
    Fields(Octet(chunk, 0), Octet(chunk, 1), Octet(chunk, 2));
    FieldOctets(a, b, c, d);
  }

  lemma QuantumOfGroup(chunk: seq<Byte>, last: bool)
    requires 1 <= |chunk| <= 3 && (last || |chunk| == 3)
    ensures Quantum(Group(chunk), last) == Some(chunk)
  {
    var n := Packed(chunk);
    Sextets(chunk);
    SymbolValue(Sextet(n, 0));
    SymbolValue(Sextet(n, 1));
    SymbolValue(Sextet(n, 2));
    SymbolValue(Sextet(n, 3));
    assert Value('=') == None;
    if |chunk| == 1 {
      assert chunk == [chunk[0]];
    } else if |chunk| == 2 {
      assert chunk == [chunk[0], chunk[1]];
    } else {
      assert chunk == [chunk[0], chunk[1], chunk[2]];
    }
  }

  lemma GroupOfQuantum(s: string, last: bool)
    requires |s| == 4 && Quantum(s, last).Some?
    ensures var chunk := Quantum(s, last).value;
            1 <= |chunk| <= 3 && (last || |chunk| == 3) && Group(chunk) == s
  {
    forall i | 0 <= i < 4 && Value(s[i]).Some?
      ensures Value(s[i]).value < 64 && Symbol(Value(s[i]).value) == s[i]
    {
      ValueSymbol(s[i]);
    }
    var a, b := Value(s[0]).value, Value(s[1]).value;
    var c := if Value(s[2]).Some? then Value(s[2]).value else 0;
    var d := if Value(s[3]).Some? then Value(s[3]).value else 0;
    SextetsOf(Quantum(s, last).value, a, b, c, d);
  }

  lemma {:induction false} RoundTrip(bytes: seq<Byte>)
    ensures Decoded(Encoded(bytes)) == Some(bytes)
  {
    if bytes != [] {
      var k := Smaller(3, |bytes|);
      RoundTrip(bytes[k..]);
      QuantumOfGroup(bytes[..k], Encoded(bytes[k..]) == []);
      var s := Encoded(bytes);
      assert s[..4] == Group(bytes[..k]) && s[4..] == Encoded(bytes[k..]);
      assert bytes[..k] + bytes[k..] == bytes;
    }
  }

  lemma {:induction false} DecodedIsCanonical(s: string)
    requires Decoded(s).Some?
    ensures Encoded(Decoded(s).value) == s
  {
    if s != [] {
      DecodedIsCanonical(s[4..]);
      GroupOfQuantum(s[..4], |s| == 4);
      var head, tail := Quantum(s[..4], |s| == 4).value, Decoded(s[4..]).value;
      if |s| == 4 {
        assert s[4..] == [] && tail == [];
      }
      var k := Smaller(3, |head + tail|);
      assert (head + tail)[..k] == head && (head + tail)[k..] == tail;
      assert s[..4] + s[4..] == s;
    }
  }

  /** The encoder and the strict decoder are inverse: every byte string has one
    * encoding, and every well-formed text is the encoding of one byte string. */
  lemma EncodesExactly(bytes: seq<Byte>, s: string)
    ensures s == Encoded(bytes) <==> Decoded(s) == Some(bytes)
  {
    RoundTrip(bytes);
    if Decoded(s) == Some(bytes) {
      DecodedIsCanonical(s);
    }
  }

  lemma Injective(a: seq<Byte>, b: seq<Byte>)
    requires Encoded(a) == Encoded(b)
    ensures a == b
  {
    RoundTrip(a);
    RoundTrip(b);
  }

  function Padding(s: string): nat {
    if s != [] && s[|s| - 1] == '=' then 1 + Padding(s[..|s| - 1]) else 0
  }

  lemma {:induction false} PaddingIs(s: string, k: nat)
    requires k < |s| && s[|s| - 1 - k] != '='
    requires forall i :: |s| - k <= i < |s| ==> s[i] == '='
    ensures Padding(s) == k
  {
    if k > 0 {
      PaddingIs(s[..|s| - 1], k - 1);
    }
  }

  lemma GroupPadding(chunk: seq<Byte>)
    requires 1 <= |chunk| <= 3
    ensures Padding(Group(chunk)) == 3 - |chunk|
    ensures Group(chunk)[0] != '='
  {
    var n := Packed(chunk);
    SymbolValue(Sextet(n, 0));
    SymbolValue(Sextet(n, |chunk|));
    assert Group(chunk)[|chunk|] == Symbol(Sextet(n, |chunk|));
    PaddingIs(Group(chunk), 3 - |chunk|);
  }

  lemma {:induction false} PaddingOfSuffix(a: string, b: string)
    requires b != [] && b[0] != '='
    ensures Padding(a + b) == Padding(b)
  {
    if b[|b| - 1] == '=' {
      assert (a + b)[..|a + b| - 1] == a + b[..|b| - 1];
      PaddingOfSuffix(a, b[..|b| - 1]);
    }
  }

  /** Four characters per started group of three bytes. */
  lemma {:induction false} Length(bytes: seq<Byte>)
    ensures |Encoded(bytes)| == 4 * ((|bytes| + 2) / 3)
  {
    if bytes != [] {
      Length(bytes[Smaller(3, |bytes|)..]);
      OneGroupMore(|bytes|);
    }
  }

  lemma OneGroupMore(n: nat)
    requires n > 0
    ensures (n + 2) / 3 == 1 + (n - Smaller(3, n) + 2) / 3
  {
  }

  lemma PaddingStep(bytes: seq<Byte>)
    requires bytes != []
    ensures Encoded(bytes) != [] && Encoded(bytes)[0] != '='
    ensures |bytes| <= 3 ==> Padding(Encoded(bytes)) == 3 - |bytes|
    ensures |bytes| > 3 ==> Encoded(bytes) == Group(bytes[..3]) + Encoded(bytes[3..])
  {
    var k := Smaller(3, |bytes|);
    GroupPadding(bytes[..k]);
    if |bytes| <= 3 {
      assert Encoded(bytes) == Group(bytes[..k]);
    }
  }

  function Missing(n: nat): nat {
    if n % 3 == 0 then 0 else 3 - n % 3
  }

  lemma MissingStep(n: nat)
    ensures 1 <= n <= 3 ==> Missing(n) == 3 - n
    ensures n > 3 ==> Missing(n) == Missing(n - 3)
  {
  }

  /** As many padding characters as the last group falls short of three bytes. */
  lemma {:induction false} PaddingByRemainder(bytes: seq<Byte>)
    ensures Padding(Encoded(bytes)) == Missing(|bytes|)
  {
    if bytes != [] {
      PaddingStep(bytes);
      MissingStep(|bytes|);
    }
    if |bytes| > 3 {
      var rest := bytes[3..];
      PaddingByRemainder(rest);
      PaddingStep(rest);
      PaddingOfSuffix(Group(bytes[..3]), Encoded(rest));
      assert |rest| == |bytes| - 3;
    }
  }
}
