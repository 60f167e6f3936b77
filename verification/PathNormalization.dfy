/**
 The path normalisation of pkg/server/server_entrypoint_tcp.go: percent-encoded unreserved characters
 are decoded and every other triplet is put in upper case, as sections 2.3, 6.2.2.1 and 6.2.2.2 of
 RFC 3986 ask. A raw path is a string of bytes; a byte that is not ASCII is written as the character
 with its number, which takes two bytes in UTF-8.
 */
module PathNormalization {
  import opened Wrappers

  predicate IsAscii(s: string) {
    forall i :: 0 <= i < |s| ==> s[i] as int < 128
  }

  predicate IsBytes(s: string) {
    forall i :: 0 <= i < |s| ==> s[i] as int < 256
  }

  /** Go's conversion of a byte to a string. */
  function Utf8(c: char): string {
    if c as int < 128 then [c]
    else [(192 + c as int / 64 % 32) as char, (128 + c as int % 64) as char]
  }

  /** strings.ToUpper on an ASCII character. */
  function Upper(c: char): char {
    if 'a' <= c <= 'z' then (c as int - 32) as char else c
  }

  function Upper3(s: string): string
    requires |s| == 3
  {
    [Upper(s[0]), Upper(s[1]), Upper(s[2])]
  }

  /** The table of percent-encoded unreserved characters. */
  function UnreservedCharacter(enc: string): Option<char>
    requires |enc| == 3
  {
    if enc[0] != '%' then None
    else match enc[1]
      case '2' => (match enc[2] case 'D' => Some('-') case 'E' => Some('.') case _ => None)
      case '3' => (match enc[2]
        case '0' => Some('0') case '1' => Some('1') case '2' => Some('2') case '3' => Some('3') case '4' => Some('4')
        case '5' => Some('5') case '6' => Some('6') case '7' => Some('7') case '8' => Some('8') case '9' => Some('9')
        case _ => None)
      case '4' => (match enc[2]
        case '1' => Some('A') case '2' => Some('B') case '3' => Some('C') case '4' => Some('D') case '5' => Some('E')
        case '6' => Some('F') case '7' => Some('G') case '8' => Some('H') case '9' => Some('I') case 'A' => Some('J')
        case 'B' => Some('K') case 'C' => Some('L') case 'D' => Some('M') case 'E' => Some('N') case 'F' => Some('O')
        case _ => None)
      case '5' => (match enc[2]
        case '0' => Some('P') case '1' => Some('Q') case '2' => Some('R') case '3' => Some('S') case '4' => Some('T')
        case '5' => Some('U') case '6' => Some('V') case '7' => Some('W') case '8' => Some('X') case '9' => Some('Y')
        case 'A' => Some('Z') case 'F' => Some('_')
        case _ => None)
      case '6' => (match enc[2]
        case '1' => Some('a') case '2' => Some('b') case '3' => Some('c') case '4' => Some('d') case '5' => Some('e')
        case '6' => Some('f') case '7' => Some('g') case '8' => Some('h') case '9' => Some('i') case 'A' => Some('j')
        case 'B' => Some('k') case 'C' => Some('l') case 'D' => Some('m') case 'E' => Some('n') case 'F' => Some('o')
        case _ => None)
      case '7' => (match enc[2]
        case '0' => Some('p') case '1' => Some('q') case '2' => Some('r') case '3' => Some('s') case '4' => Some('t')
        case '5' => Some('u') case '6' => Some('v') case '7' => Some('w') case '8' => Some('x') case '9' => Some('y')
        case 'A' => Some('z') case 'E' => Some('~')
        case _ => None)
      case _ => None
  }

  function Piece(triplet: string): string
    requires |triplet| == 3
  {
    var enc := Upper3(triplet);
    match UnreservedCharacter(enc)
    case Some(r) => [r]
    case None => enc
  }

  function Prepend(piece: string, rest: Option<string>): Option<string> {
    match rest case Some(r) => Some(piece + r) case None => None
  }

  /** The normalised path, or None when the request is answered with 400. */
  function Normalized(s: string): Option<string> {
    if s == "" then Some("")
    else if s[0] != '%' then Prepend(Utf8(s[0]), Normalized(s[1..]))
    else if |s| <= 2 then None
    else Prepend(Piece(s[..3]), Normalized(s[3..]))
  }

  /** No triplet has a byte that is not ASCII; the library accepts no other paths. */
  predicate AsciiTriplets(s: string) {
    if s == "" then true
    else if s[0] != '%' then AsciiTriplets(s[1..])
    else if |s| <= 2 then true
    else IsAscii(s[..3]) && AsciiTriplets(s[3..])
  }

  method Normalize(rawPath: string) returns (r: Option<string>)
    requires IsBytes(rawPath) && AsciiTriplets(rawPath)
    ensures r == Normalized(rawPath)
  {
    var builder := "";
    var i := 0;
    assert rawPath[0..] == rawPath;
    PrependNothing(Normalized(rawPath));
    while i < |rawPath|
      invariant 0 <= i <= |rawPath|
      invariant Normalized(rawPath) == Prepend(builder, Normalized(rawPath[i..]))
    {
      ghost var rest := rawPath[i..];
      if rawPath[i] != '%' {
        assert rest[0] == rawPath[i] && rest[1..] == rawPath[i + 1..];
        PrependTwice(builder, Utf8(rawPath[i]), Normalized(rest[1..]));
        builder := builder + Utf8(rawPath[i]);
        i := i + 1;
      } else {
        if i + 2 >= |rawPath| {
          return None;
        }
        var encoded := Upper3(rawPath[i..i + 3]);
        var unreserved := UnreservedCharacter(encoded);
        assert rest[..3] == rawPath[i..i + 3] && rest[3..] == rawPath[i + 3..];
        PrependTwice(builder, Piece(rawPath[i..i + 3]), Normalized(rest[3..]));
        if unreserved.Some? {
          builder := builder + [unreserved.value];
        } else {
          builder := builder + encoded;
        }
        i := i + 3;
      }
    }
    assert rawPath[i..] == "" && builder + "" == builder;
    r := Some(builder);
  }

  lemma PrependNothing(rest: Option<string>)
    ensures Prepend("", rest) == rest
  {
    if rest.Some? {
      assert "" + rest.value == rest.value;
    }
  }

  lemma PrependTwice(a: string, b: string, rest: Option<string>)
    ensures Prepend(a, Prepend(b, rest)) == Prepend(a + b, rest)
  {
    if rest.Some? {
      assert a + (b + rest.value) == (a + b) + rest.value;
    }
  }

  // ---------------------------------------------------------------------------
  // RFC 3986
  // ---------------------------------------------------------------------------

  predicate IsHex(c: char) {
    '0' <= c <= '9' || 'A' <= c <= 'F' || 'a' <= c <= 'f'
  }

  function HexValue(c: char): (v: nat)
    requires IsHex(c)
    ensures v < 16
  {
    if '0' <= c <= '9' then c as int - '0' as int
    else if 'A' <= c <= 'F' then c as int - 'A' as int + 10
    else c as int - 'a' as int + 10
  }

  function HexDigit(v: nat): (c: char)
    requires v < 16
    ensures IsHex(c) && HexValue(c) == v && Upper(c) == c
  {
    if v < 10 then ('0' as int + v) as char else ('A' as int + v - 10) as char
  }

  /** Section 2.3: letters, digits, hyphen, period, underscore and tilde. */
  predicate Unreserved(octet: nat) {
    || 'A' as int <= octet <= 'Z' as int || 'a' as int <= octet <= 'z' as int || '0' as int <= octet <= '9' as int
    || octet == '-' as int || octet == '.' as int || octet == '_' as int || octet == '~' as int
  }

  /** Every percent sign starts a triplet with two hexadecimal digits. */
  predicate WellFormed(s: string) {
    if s == "" then true
    else if s[0] != '%' then WellFormed(s[1..])
    else |s| > 2 && IsHex(s[1]) && IsHex(s[2]) && WellFormed(s[3..])
  }

  function Octet(s: string): (v: nat)
    requires |s| > 2 && IsHex(s[1]) && IsHex(s[2])
    ensures v < 256
  {
    16 * HexValue(s[1]) + HexValue(s[2])
  }

  /** Percent-decoding. */
  function Decoded(s: string): seq<nat>
    requires WellFormed(s)
  {
    if s == "" then []
    else if s[0] != '%' then [s[0] as int] + Decoded(s[1..])
    else [Octet(s)] + Decoded(s[3..])
  }

  /** What a path means: plain characters, and octets that must stay encoded. */
  datatype Token = Plain(c: char) | Escaped(octet: nat)

  function Read(s: string): seq<Token>
    requires WellFormed(s)
  {
    if s == "" then []
    else if s[0] != '%' then [Plain(s[0])] + Read(s[1..])
    else if Unreserved(Octet(s)) then [Plain(Octet(s) as char)] + Read(s[3..])
    else [Escaped(Octet(s))] + Read(s[3..])
  }

  predicate Canonical(t: Token) {
    match t
    case Plain(c) => c != '%'
    case Escaped(v) => v < 256 && !Unreserved(v)
  }

  function Text(t: Token): string
    requires Canonical(t)
  {
    match t
    case Plain(c) => [c]
    case Escaped(v) => ['%', HexDigit(v / 16), HexDigit(v % 16)]
  }

  function Render(ts: seq<Token>): string
    requires forall i :: 0 <= i < |ts| ==> Canonical(ts[i])
  {
    if ts == [] then "" else Text(ts[0]) + Render(ts[1..])
  }

  lemma HexUpper(c: char)
    requires IsHex(c)
    ensures HexDigit(HexValue(c)) == Upper(c)
  {
  }

  /** The table holds exactly the unreserved octets, under their upper-case triplets. */
  lemma TableIsSection23(x: nat, y: nat)
    requires x < 16 && y < 16
    ensures UnreservedCharacter(['%', HexDigit(x), HexDigit(y)])
         == if Unreserved(16 * x + y) then Some((16 * x + y) as char) else None
  {
  }

  /** What the loop writes for a triplet is the text of the token the triplet stands for. */
  lemma PieceIsText(s: string)
    requires |s| > 2 && s[0] == '%' && IsHex(s[1]) && IsHex(s[2])
    ensures var v := Octet(s);
            Piece(s[..3]) == if Unreserved(v) then [v as char] else Text(Escaped(v))
  {
    var x, y := HexValue(s[1]), HexValue(s[2]);
    HexUpper(s[1]);
    HexUpper(s[2]);
    TableIsSection23(x, y);
    assert Upper3(s[..3]) == ['%', HexDigit(x), HexDigit(y)];
    SplitOctet(x, y);
  }

  lemma SplitOctet(x: nat, y: nat)
    requires x < 16 && y < 16
    ensures (16 * x + y) / 16 == x && (16 * x + y) % 16 == y
  {
  }

  lemma {:induction false} ReadIsCanonical(s: string)
    requires WellFormed(s)
    ensures forall i :: 0 <= i < |Read(s)| ==> Canonical(Read(s)[i])
    decreases |s|
  {
    if s != "" {
      ReadIsCanonical(if s[0] != '%' then s[1..] else s[3..]);
    }
  }

  predicate AllCanonical(ts: seq<Token>) {
    forall i :: 0 <= i < |ts| ==> Canonical(ts[i])
  }

  /** A token as the loop writes it: a plain byte that is not ASCII becomes two. */
  function Wide(t: Token): seq<Token> {
    if t.Plain? && t.c as int >= 128 then [Plain(Utf8(t.c)[0]), Plain(Utf8(t.c)[1])] else [t]
  }

  function Widen(ts: seq<Token>): seq<Token> {
    if ts == [] then [] else Wide(ts[0]) + Widen(ts[1..])
  }

  lemma {:induction false} RenderConcat(a: seq<Token>, b: seq<Token>)
    requires AllCanonical(a) && AllCanonical(b)
    ensures AllCanonical(a + b) && Render(a + b) == Render(a) + Render(b)
    decreases |a|
  {
    if a == [] {
      assert a + b == b && "" + Render(b) == Render(b);
    } else {
      RenderConcat(a[1..], b);
      assert (a + b)[1..] == a[1..] + b;
      assert Text(a[0]) + (Render(a[1..]) + Render(b)) == Render(a) + Render(b);
    }
  }

  lemma RenderWide(t: Token)
    requires Canonical(t)
    ensures AllCanonical(Wide(t)) && Render(Wide(t)) == if t.Plain? then Utf8(t.c) else Text(t)
  {
    var w := Wide(t);
    if |w| == 2 {
      assert Render(w[1..][1..]) == "";
    }
  }

  /** A well-formed path is accepted, and its normal form is the rendering of what it means. */
  lemma {:induction false} NormalizedIsRendering(s: string)
    requires WellFormed(s)
    ensures AllCanonical(Widen(Read(s))) && Normalized(s) == Some(Render(Widen(Read(s))))
    decreases |s|
  {
    ReadIsCanonical(s);
    if s != "" {
      var rest := if s[0] != '%' then s[1..] else s[3..];
      NormalizedIsRendering(rest);
      if s[0] == '%' { PieceIsText(s); }
      assert Read(s)[1..] == Read(rest);
      RenderWide(Read(s)[0]);
      RenderConcat(Wide(Read(s)[0]), Widen(Read(rest)));
    }
  }

  /** Rendering loses nothing: reading it back gives the same tokens. */
  lemma {:induction false} ReadRender(ts: seq<Token>)
    requires forall i :: 0 <= i < |ts| ==> Canonical(ts[i])
    ensures WellFormed(Render(ts)) && Read(Render(ts)) == ts
    decreases |ts|
  {
    if ts != [] {
      ReadRender(ts[1..]);
      var s := Render(ts);
      match ts[0]
      case Plain(c) =>
        assert s[1..] == Render(ts[1..]);
      case Escaped(v) =>
        assert s[3..] == Render(ts[1..]);
        assert s[1] == HexDigit(v / 16) && s[2] == HexDigit(v % 16);
        assert Octet(s) == v;
    }
  }

  ghost predicate ByteTokens(ts: seq<Token>) {
    forall i :: 0 <= i < |ts| && ts[i].Plain? ==> ts[i].c as int < 256
  }

  lemma {:induction false} ReadsBytes(s: string)
    requires WellFormed(s) && IsBytes(s)
    ensures ByteTokens(Read(s))
    decreases |s|
  {
    if s != "" {
      ReadsBytes(if s[0] != '%' then s[1..] else s[3..]);
    }
  }

  lemma WideFirst(t: Token, rest: seq<Token>, u: Token, more: seq<Token>)
    requires ByteTokens([t]) && ByteTokens([u]) && Wide(t) + rest == Wide(u) + more
    ensures t == u && rest == more
  {
    var ts, us := Wide(t) + rest, Wide(u) + more;
    assert [t][0] == t && [u][0] == u;
    assert ts[0] == us[0] && Wide(t)[0] == ts[0] && Wide(u)[0] == us[0];
    if |Wide(t)| == 2 && |Wide(u)| == 2 {
      assert ts[1] == Wide(t)[1] && us[1] == Wide(u)[1];
    }
    assert t == u;
    assert rest == ts[|Wide(t)|..] && more == us[|Wide(u)|..];
  }

  /** Writing bytes as characters confuses no two paths. */
  lemma {:induction false} WidenInjective(ts: seq<Token>, us: seq<Token>)
    requires ByteTokens(ts) && ByteTokens(us) && Widen(ts) == Widen(us)
    ensures ts == us
    decreases |ts|
  {
    if ts != [] && us != [] {
      WideFirst(ts[0], Widen(ts[1..]), us[0], Widen(us[1..]));
      WidenInjective(ts[1..], us[1..]);
      assert ts == [ts[0]] + ts[1..] && us == [us[0]] + us[1..];
    }
  }

  /** Two well-formed paths have the same normal form if and only if they mean the same. */
  lemma NormalFormIsCanonical(p: string, q: string)
    requires WellFormed(p) && WellFormed(q) && IsBytes(p) && IsBytes(q)
    ensures Normalized(p) == Normalized(q) <==> Read(p) == Read(q)
  {
    NormalizedIsRendering(p);
    NormalizedIsRendering(q);
    ReadRender(Widen(Read(p)));
    ReadRender(Widen(Read(q)));
    ReadsBytes(p);
    ReadsBytes(q);
    if Normalized(p) == Normalized(q) {
      WidenInjective(Read(p), Read(q));
    }
  }

  lemma {:induction false} DecodedIsRead(s: string)
    requires WellFormed(s)
    ensures |Decoded(s)| == |Read(s)|
    ensures forall i :: 0 <= i < |Read(s)| ==>
              Decoded(s)[i] == match Read(s)[i] { case Plain(c) => c as int case Escaped(v) => v }
    decreases |s|
  {
    if s != "" {
      DecodedIsRead(if s[0] != '%' then s[1..] else s[3..]);
    }
  }

  /** The tokens of an ASCII path are written as they are, those of any other path take more room. */
  lemma {:induction false} WidenLength(s: string)
    requires WellFormed(s)
    ensures if IsAscii(s) then Widen(Read(s)) == Read(s) else |Widen(Read(s))| > |Read(s)|
    decreases |s|
  {
    if s != "" {
      var n := if s[0] != '%' then 1 else 3;
      WidenLength(s[n..]);
      assert Read(s)[1..] == Read(s[n..]);
      assert IsAscii(s) <==> IsAscii(s[..n]) && IsAscii(s[n..]) by { assert s == s[..n] + s[n..]; }
    }
  }

  lemma {:induction false} WellFormedTriplets(s: string)
    requires WellFormed(s)
    ensures AsciiTriplets(s)
    decreases |s|
  {
    if s != "" {
      WellFormedTriplets(if s[0] != '%' then s[1..] else s[3..]);
    }
  }

  /**
   The normal form of a well-formed path is well-formed; it percent-decodes to the same octets if and
   only if the path is ASCII.
   */
  lemma NormalFormDecodesAlike(s: string)
    requires WellFormed(s)
    ensures Normalized(s).Some? && WellFormed(Normalized(s).value)
    ensures Decoded(Normalized(s).value) == Decoded(s) <==> IsAscii(s)
  {
    NormalizedIsRendering(s);
    ReadRender(Widen(Read(s)));
    DecodedIsRead(s);
    DecodedIsRead(Normalized(s).value);
    WidenLength(s);
  }

  // ---------------------------------------------------------------------------
  // Normalising twice
  // ---------------------------------------------------------------------------

  /** The bytes that are not ASCII. */
  function HighBytes(s: string): nat {
    if s == "" then 0 else (if s[0] as int >= 128 then 1 else 0) + HighBytes(s[1..])
  }

  lemma {:induction false} HighConcat(a: string, b: string)
    ensures HighBytes(a + b) == HighBytes(a) + HighBytes(b)
    decreases |a|
  {
    if a == "" {
      assert a + b == b;
    } else {
      HighConcat(a[1..], b);
      assert (a + b)[1..] == a[1..] + b;
    }
  }

  lemma {:induction false} NoHighBytes(s: string)
    ensures HighBytes(s) == 0 <==> IsAscii(s)
  {
    if s != "" {
      NoHighBytes(s[1..]);
      assert s == [s[0]] + s[1..];
    }
  }

  lemma PieceAgain(t: string)
    requires |t| == 3 && t[0] == '%'
    ensures var p := Piece(t);
            || (|p| == 1 && p[0] != '%' && (IsAscii(t) ==> IsAscii(p)))
            || (|p| == 3 && p[0] == '%' && Piece(p) == p && (IsAscii(t) ==> IsAscii(p)))
  {
  }

  lemma HighUtf8(c: char)
    ensures HighBytes(Utf8(c)) == 2 * HighBytes([c])
    ensures c != '%' ==> '%' !in Utf8(c)
  {
    if c as int >= 128 {
      assert Utf8(c)[1..][1..] == "";
    }
  }

  /** What is written before the rest of a path does not change how the rest is read. */
  lemma {:induction false} PlainPrefix(a: string, b: string)
    requires '%' !in a
    ensures AsciiTriplets(a + b) == AsciiTriplets(b)
    decreases |a|
  {
    if a == "" {
      assert a + b == b;
    } else {
      assert a[0] in a && (a + b)[1..] == a[1..] + b;
      PlainPrefix(a[1..], b);
    }
  }

  /** Each pass doubles the bytes that are not ASCII. */
  lemma {:induction false} PassDoubles(s: string)
    requires AsciiTriplets(s) && Normalized(s).Some?
    ensures HighBytes(Normalized(s).value) == 2 * HighBytes(s) && AsciiTriplets(Normalized(s).value)
    decreases |s|
  {
    if s == "" {
    } else if s[0] != '%' {
      PassDoubles(s[1..]);
      HighUtf8(s[0]);
      HighConcat(Utf8(s[0]), Normalized(s[1..]).value);
      PlainPrefix(Utf8(s[0]), Normalized(s[1..]).value);
    } else {
      PassDoubles(s[3..]);
      var p, rest := Piece(s[..3]), Normalized(s[3..]).value;
      PieceAgain(s[..3]);
      NoHighBytes(p);
      NoHighBytes(s[..3]);
      HighConcat(p, rest);
      assert s == s[..3] + s[3..];
      HighConcat(s[..3], s[3..]);
      if |p| == 1 {
        PlainPrefix(p, rest);
      } else {
        assert (p + rest)[..3] == p && (p + rest)[3..] == rest;
      }
    }
  }

  /** Normalising an accepted ASCII path twice, well-formed or not, changes nothing: no new triplet appears. */
  lemma {:induction false} AsciiTwice(s: string)
    requires IsAscii(s)
    ensures var r := Normalized(s); r.Some? ==> Normalized(r.value) == r
    decreases |s|
  {
    if s != "" {
      if s[0] != '%' {
        AsciiTwice(s[1..]);
        if Normalized(s[1..]).Some? {
          var q := Normalized(s).value;
          assert q[1..] == Normalized(s[1..]).value && q[0] == s[0];
        }
      } else if |s| > 2 {
        AsciiTwice(s[3..]);
        if Normalized(s[3..]).Some? {
          var q := Normalized(s).value;
          PieceAgain(s[..3]);
          if |Piece(s[..3])| == 1 {
            assert q[1..] == Normalized(s[3..]).value && q[0] == Piece(s[..3])[0];
          } else {
            assert q[3..] == Normalized(s[3..]).value && q[..3] == Piece(s[..3]);
          }
        }
      }
    }
  }

  /** Normalising an accepted path a second time changes nothing if and only if the path is ASCII. */
  lemma NormalizeTwice(s: string)
    requires AsciiTriplets(s) && Normalized(s).Some?
    ensures Normalized(Normalized(s).value) == Normalized(s) <==> IsAscii(s)
  {
    var r := Normalized(s).value;
    if IsAscii(s) {
      AsciiTwice(s);
    }
    if Normalized(r) == Some(r) {
      PassDoubles(s);
      PassDoubles(r);
      NoHighBytes(s);
    }
  }
}
