/** Cursor text: base64 with the URL-safe alphabet (sections 4 and 5 of RFC 4648) without its padding. */
module Cursor {
  import opened Bytes
  import opened Options

  /** The six-bit value of a character of the alphabet. */
  function Sextet(c: char): Option<nat> {
    if 'A' <= c <= 'Z' then Some((c - 'A') as nat)
    else if 'a' <= c <= 'z' then Some((c - 'a') as nat + 26)
    else if '0' <= c <= '9' then Some((c - '0') as nat + 52)
    else if c == '-' then Some(62)
    else if c == '_' then Some(63)
    else None
  }

  function Symbol(n: nat): (c: char)
    requires n < 64
    ensures Sextet(c) == Some(n)
  {
    if n < 26 then 'A' + n as char
    else if n < 52 then 'a' + (n - 26) as char
    else if n < 62 then '0' + (n - 52) as char
    else if n == 62 then '-' else '_'
  }

  lemma SymbolUnique(c: char)
    requires Sextet(c).Some?
    ensures Sextet(c).value < 64 && Symbol(Sextet(c).value) == c && c != '='
  {
  }

  function Encode(raw: seq<Byte>): string {
    if raw == [] then ""
    else if |raw| == 1 then [Symbol(raw[0] / 4), Symbol(raw[0] % 4 * 16), '=', '=']
    else if |raw| == 2 then
      [Symbol(raw[0] / 4), Symbol(raw[0] % 4 * 16 + raw[1] / 16), Symbol(raw[1] % 16 * 4), '=']
    else
      [Symbol(raw[0] / 4), Symbol(raw[0] % 4 * 16 + raw[1] / 16),
       Symbol(raw[1] % 16 * 4 + raw[2] / 64), Symbol(raw[2] % 64)] + Encode(raw[3..])
  }

  predicate Letters(s: string) {
    forall c :: c in s ==> Sextet(c).Some?
  }

  function Value(c: char): (n: nat)
    requires Sextet(c).Some?
    ensures n < 64
  {
    Sextet(c).value
  }

  /** Decoding of padded text; bits left over before the padding are dropped. */
  function Decode(s: string): Option<seq<Byte>> {
    if s == "" then Some([])
    else if |s| < 4 || !Letters(s[..2]) then None
    else
      var a := Value(s[0]) * 4 + Value(s[1]) / 16;
      if s[2..] == "==" then Some([a])
      else if !Letters(s[2..3]) then None
      else
        var b := Value(s[1]) % 16 * 16 + Value(s[2]) / 4;
        if s[3..] == "=" then Some([a, b])
        else if !Letters(s[3..4]) then None
        else
          var rest := Decode(s[4..]);
          if rest.None? then None else Some([a, b, Value(s[2]) % 4 * 64 + Value(s[3])] + rest.value)
  }

  /** `rstrip("=")` */
  function Strip(s: string): string {
    if s != "" && s[|s| - 1] == '=' then Strip(s[..|s| - 1]) else s
  }

  /** `"=" * (-len(cursor) % 4)` */
  function Padding(cursor: string): string {
    seq((-|cursor|) % 4, i => '=')
  }

  function EncodeCursor(raw: seq<Byte>): string {
    Strip(Encode(raw))
  }

  function DecodeCursor(cursor: string): Option<seq<Byte>> {
    Decode(cursor + Padding(cursor))
  }

  lemma {:induction false} StripKeeps(p: string, s: string)
    requires Letters(p)
    ensures Strip(p + s) == p + Strip(s)
  {
    if s == "" {
      assert p + s == p;
      if p != "" {
        SymbolUnique(p[|p| - 1]);
      }
    } else {
      assert (p + s)[..|p + s| - 1] == p + s[..|s| - 1];
      if s[|s| - 1] == '=' {
        StripKeeps(p, s[..|s| - 1]);
      }
    }
  }

  lemma PaddingPeriodic(p: string, s: string)
    requires |p| == 4
    ensures Padding(p + s) == Padding(s)
  {
  }

  lemma EncodeCursorUnfold(raw: seq<Byte>)
    requires |raw| >= 3
    ensures var head := Encode(raw)[..4];
      Letters(head) && |head| == 4 && EncodeCursor(raw) == head + EncodeCursor(raw[3..])
  {
    StripKeeps(Encode(raw)[..4], Encode(raw[3..]));
    assert Encode(raw) == Encode(raw)[..4] + Encode(raw[3..]);
  }

  lemma PaddingIsStripped()
    ensures Strip("==") == Strip("=") == ""
  {
    assert "=="[..1] == "=" && "="[..0] == "";
  }

  lemma ShortCursor(raw: seq<Byte>)
    requires |raw| < 3
    ensures EncodeCursor(raw) == Encode(raw)[..if |raw| == 0 then 0 else |raw| + 1]
  {
    PaddingIsStripped();
    if |raw| == 1 {
      assert Encode(raw) == Encode(raw)[..2] + "==";
      StripKeeps(Encode(raw)[..2], "==");
    } else if |raw| == 2 {
      assert Encode(raw) == Encode(raw)[..3] + "=";
      StripKeeps(Encode(raw)[..3], "=");
    }
  }

  /** The first four characters, read as base-64 digits, are the number the first three bytes are in base 256. */
  lemma GroupValue(raw: seq<Byte>)
    requires |raw| >= 3
    ensures var s := EncodeCursor(raw);
      var a: int, b: int, c: int := raw[0], raw[1], raw[2];
      && |s| >= 4 && Letters(s[..4]) && s[4..] == EncodeCursor(raw[3..])
      && Value(s[..4][0]) * 262144 + Value(s[..4][1]) * 4096 + Value(s[..4][2]) * 64 + Value(s[..4][3])
           == a * 65536 + b * 256 + c
  {
    EncodeCursorUnfold(raw);
    var x, y, z, w := raw[0] / 4, raw[0] % 4 * 16 + raw[1] / 16, raw[1] % 16 * 4 + raw[2] / 64, raw[2] % 64;
    assert Encode(raw)[..4] == [Symbol(x), Symbol(y), Symbol(z), Symbol(w)];
  }

  /** The test vectors of section 10 of RFC 4648 for "f", "fo" and "foo", and the two characters of section 5. */
  lemma KnownCursors()
    ensures Encode([102]) == "Zg==" && Encode([102, 111]) == "Zm8=" && Encode([102, 111, 111]) == "Zm9v"
    ensures Encode([251, 239, 255]) == "--__"
  {
    assert Encode([]) == "";
    assert [102, 111, 111][3..] == [] && [251, 239, 255][3..] == [];
  }

  /** Stripping removes nothing but the padding, and the length alone restores it. */
  lemma {:induction false} StripRemovesOnlyPadding(raw: seq<Byte>)
    ensures Letters(EncodeCursor(raw))
    ensures |EncodeCursor(raw)| == (4 * |raw| + 2) / 3
    ensures EncodeCursor(raw) + Padding(EncodeCursor(raw)) == Encode(raw)
    decreases |raw|
  {
    if |raw| < 3 {
      ShortCursor(raw);
    } else {
      var head, rest := Encode(raw)[..4], EncodeCursor(raw[3..]);
      StripRemovesOnlyPadding(raw[3..]);
      EncodeCursorUnfold(raw);
      PaddingPeriodic(head, rest);
      assert head + rest + Padding(rest) == head + (rest + Padding(rest));
    }
  }

  lemma DecodeOne(x: nat, y: nat)
    requires x < 64 && y < 64
    ensures Decode([Symbol(x), Symbol(y), '=', '=']) == Some([x * 4 + y / 16])
  {
    assert [Symbol(x), Symbol(y), '=', '='][2..] == "==";
  }

  lemma DecodeTwo(x: nat, y: nat, z: nat)
    requires x < 64 && y < 64 && z < 64
    ensures Decode([Symbol(x), Symbol(y), Symbol(z), '=']) == Some([x * 4 + y / 16, y % 16 * 16 + z / 4])
  {
    var s := [Symbol(x), Symbol(y), Symbol(z), '='];
    assert s[2..][0] == Symbol(z) && "=="[0] == '=';
    assert s[3..] == "=";
  }

  lemma DecodeQuad(x: nat, y: nat, z: nat, w: nat, rest: string)
    requires x < 64 && y < 64 && z < 64 && w < 64
    ensures var quad := [Symbol(x), Symbol(y), Symbol(z), Symbol(w)];
      Decode(quad + rest) ==
        if Decode(rest).None? then None
        else Some([x * 4 + y / 16, y % 16 * 16 + z / 4, z % 4 * 64 + w] + Decode(rest).value)
  {
    var s := [Symbol(x), Symbol(y), Symbol(z), Symbol(w)] + rest;
    assert s[2..][0] == Symbol(z) && "=="[0] == '=' && s[3..][0] == Symbol(w) && "="[0] == '=';
    assert s[4..] == rest;
  }

  lemma Regroup(a: Byte, b: Byte, c: Byte)
    ensures a / 4 * 4 + (a % 4 * 16 + b / 16) / 16 == a
    ensures (a % 4 * 16 + b / 16) % 16 * 16 + (b % 16 * 4 + c / 64) / 4 == b
    ensures (b % 16 * 4 + c / 64) % 4 * 64 + c % 64 == c
  {
  }

  lemma OneRoundTrip(a: Byte)
    ensures Decode(Encode([a])) == Some([a])
  {
    Regroup(a, 0, 0);
    DecodeOne(a / 4, a % 4 * 16);
  }

  lemma TwoRoundTrip(a: Byte, b: Byte)
    ensures Decode(Encode([a, b])) == Some([a, b])
  {
    Regroup(a, b, 0);
    assert Encode([a, b]) == [Symbol(a / 4), Symbol(a % 4 * 16 + b / 16), Symbol(b % 16 * 4), '='];
    DecodeTwo(a / 4, a % 4 * 16 + b / 16, b % 16 * 4);
  }

  lemma EncodeThree(x: nat, y: nat, z: nat, w: nat, a: Byte, b: Byte, c: Byte, rest: seq<Byte>)
    requires x < 64 && y < 64 && z < 64 && w < 64
    requires a / 4 == x && a % 4 * 16 + b / 16 == y && b % 16 * 4 + c / 64 == z && c % 64 == w
    ensures Encode([a, b, c] + rest) == [Symbol(x), Symbol(y), Symbol(z), Symbol(w)] + Encode(rest)
  {
    assert ([a, b, c] + rest)[3..] == rest;
  }

  lemma DecodeThree(x: nat, y: nat, z: nat, w: nat, a: Byte, b: Byte, c: Byte, rest: seq<Byte>)
    requires x < 64 && y < 64 && z < 64 && w < 64
    requires a == x * 4 + y / 16 && b == y % 16 * 16 + z / 4 && c == z % 4 * 64 + w
    requires Decode(Encode(rest)) == Some(rest)
    ensures Decode([Symbol(x), Symbol(y), Symbol(z), Symbol(w)] + Encode(rest)) == Some([a, b, c] + rest)
  {
    DecodeQuad(x, y, z, w, Encode(rest));
  }

  lemma ThreeRoundTrip(a: Byte, b: Byte, c: Byte, rest: seq<Byte>)
    requires Decode(Encode(rest)) == Some(rest)
    ensures Decode(Encode([a, b, c] + rest)) == Some([a, b, c] + rest)
  {
    var x, y, z, w := a / 4, a % 4 * 16 + b / 16, b % 16 * 4 + c / 64, c % 64;
    Regroup(a, b, c);
    EncodeThree(x, y, z, w, a, b, c, rest);
    DecodeThree(x, y, z, w, a, b, c, rest);
  }

  lemma {:induction false} DecodeEncode(raw: seq<Byte>)
    ensures Decode(Encode(raw)) == Some(raw)
    decreases |raw|
  {
    if |raw| == 1 {
      OneRoundTrip(raw[0]);
      assert raw == [raw[0]];
    } else if |raw| == 2 {
      TwoRoundTrip(raw[0], raw[1]);
      assert raw == [raw[0], raw[1]];
    } else if |raw| >= 3 {
      DecodeEncode(raw[3..]);
      ThreeRoundTrip(raw[0], raw[1], raw[2], raw[3..]);
      assert raw == [raw[0], raw[1], raw[2]] + raw[3..];
    }
  }

  /** Every byte string survives the round trip through a cursor. */
  lemma RoundTrip(raw: seq<Byte>)
    ensures DecodeCursor(EncodeCursor(raw)) == Some(raw)
  {
    StripRemovesOnlyPadding(raw);
    DecodeEncode(raw);
  }

  /** No padding of its own, and no bits left over in the last character. */
  predicate Canonical(cursor: string) {
    && Letters(cursor)
    && (|cursor| % 4 == 2 ==> Value(cursor[|cursor| - 1]) % 16 == 0)
    && (|cursor| % 4 == 3 ==> Value(cursor[|cursor| - 1]) % 4 == 0)
  }

  lemma SymbolsOf(s: string)
    requires |s| == 4 && Letters(s)
    ensures s == [Symbol(Value(s[0])), Symbol(Value(s[1])), Symbol(Value(s[2])), Symbol(Value(s[3]))]
  {
    forall i | 0 <= i < 4 ensures Symbol(Value(s[i])) == s[i] {
      SymbolUnique(s[i]);
    }
  }

  lemma PadAfter(head: string, rest: string)
    requires |head| == 4
    ensures head + rest + Padding(head + rest) == head + (rest + Padding(rest))
  {
    PaddingPeriodic(head, rest);
  }

  lemma DecodeStep(x: nat, y: nat, z: nat, w: nat, rest: string) returns (whole: Option<seq<Byte>>, part: Option<seq<Byte>>)
    requires x < 64 && y < 64 && z < 64 && w < 64
    ensures part == DecodeCursor(rest)
    ensures whole == DecodeCursor([Symbol(x), Symbol(y), Symbol(z), Symbol(w)] + rest)
    ensures whole == if part.None? then None
                     else Some([x * 4 + y / 16, y % 16 * 16 + z / 4, z % 4 * 64 + w] + part.value)
  {
    part := DecodeCursor(rest);
    PadAfter([Symbol(x), Symbol(y), Symbol(z), Symbol(w)], rest);
    DecodeQuad(x, y, z, w, rest + Padding(rest));
    whole := if part.None? then None else Some([x * 4 + y / 16, y % 16 * 16 + z / 4, z % 4 * 64 + w] + part.value);
  }

  lemma Ungroup(x: nat, y: nat, z: nat, w: nat, a: Byte, b: Byte, c: Byte)
    requires x < 64 && y < 64 && z < 64 && w < 64
    requires a == x * 4 + y / 16 && b == y % 16 * 16 + z / 4 && c == z % 4 * 64 + w
    ensures a / 4 == x && a % 4 * 16 + b / 16 == y && b % 16 * 4 + c / 64 == z && c % 64 == w
  {
  }

  lemma EncodeQuad(x: nat, y: nat, z: nat, w: nat, a: Byte, b: Byte, c: Byte, raw: seq<Byte>)
    requires x < 64 && y < 64 && z < 64 && w < 64
    requires a / 4 == x && a % 4 * 16 + b / 16 == y && b % 16 * 4 + c / 64 == z && c % 64 == w
    ensures EncodeCursor([a, b, c] + raw) == [Symbol(x), Symbol(y), Symbol(z), Symbol(w)] + EncodeCursor(raw)
  {
    var all := [a, b, c] + raw;
    assert all[3..] == raw;
    EncodeCursorUnfold(all);
  }

  lemma EncodeStep(x: nat, y: nat, z: nat, w: nat, raw: seq<Byte>)
    requires x < 64 && y < 64 && z < 64 && w < 64
    ensures EncodeCursor([x * 4 + y / 16, y % 16 * 16 + z / 4, z % 4 * 64 + w] + raw)
         == [Symbol(x), Symbol(y), Symbol(z), Symbol(w)] + EncodeCursor(raw)
  {
    var a: Byte, b: Byte, c: Byte := x * 4 + y / 16, y % 16 * 16 + z / 4, z % 4 * 64 + w;
    Ungroup(x, y, z, w, a, b, c);
    EncodeQuad(x, y, z, w, a, b, c, raw);
  }

  /** Four characters that decode are what their three bytes encode to. */
  lemma CursorStep(head: string, rest: string) returns (whole: Option<seq<Byte>>, part: Option<seq<Byte>>)
    requires |head| == 4 && Letters(head)
    ensures whole == DecodeCursor(head + rest) && part == DecodeCursor(rest)
    ensures whole.Some? <==> part.Some?
    ensures whole.Some? ==> EncodeCursor(whole.value) == head + EncodeCursor(part.value)
  {
    var x, y, z, w := Value(head[0]), Value(head[1]), Value(head[2]), Value(head[3]);
    SymbolsOf(head);
    whole, part := DecodeStep(x, y, z, w, rest);
    if part.Some? {
      EncodeStep(x, y, z, w, part.value);
    }
  }

  lemma CanonicalStep(head: string, rest: string)
    requires |head| == 4 && Letters(head)
    ensures |head + rest| % 4 == |rest| % 4
    ensures Canonical(head + rest) <==> Canonical(rest)
  {
    var cursor := head + rest;
    assert Letters(cursor) <==> Letters(rest);
    if rest != "" {
      assert cursor[|cursor| - 1] == rest[|rest| - 1];
    }
  }

  lemma SameSymbol(m: nat, n: nat)
    requires m < 64 && n < 64
    ensures Symbol(m) == Symbol(n) <==> m == n
  {
  }

  lemma SamePrefix(head: string, s: string, t: string)
    ensures head + s == head + t <==> s == t
  {
    assert (head + s)[|head|..] == s && (head + t)[|head|..] == t;
  }

  /** The cursor decodes to `raw`, which encodes to `text`. */
  ghost predicate Passes(cursor: string, raw: Option<seq<Byte>>, text: string) {
    raw == DecodeCursor(cursor) && (raw.Some? ==> text == EncodeCursor(raw.value))
  }

  /** Decoding fails only on a character left alone, and the text comes back exactly for canonical cursors. */
  ghost predicate Faithful(cursor: string, raw: Option<seq<Byte>>, text: string) {
    && (raw.Some? <==> |cursor| % 4 != 1)
    && (raw.Some? ==> (text == cursor <==> Canonical(cursor)))
  }

  lemma TwoCharacters(x: nat, y: nat, low: nat) returns (raw: Option<seq<Byte>>, text: string)
    requires x < 64 && y < 64 && low == y / 16 * 16
    ensures text == [Symbol(x), Symbol(low)] && raw.Some?
    ensures Passes([Symbol(x), Symbol(y)], raw, text)
  {
    var a: Byte := x * 4 + y / 16;
    raw, text := Some([a]), [Symbol(x), Symbol(low)];
    assert [Symbol(x), Symbol(y)] + Padding([Symbol(x), Symbol(y)]) == [Symbol(x), Symbol(y), '=', '='];
    DecodeOne(x, y);
    assert a / 4 == x && a % 4 * 16 == low;
    ShortCursor([a]);
  }

  lemma ThreeDecode(x: nat, y: nat, z: nat)
    requires x < 64 && y < 64 && z < 64
    ensures DecodeCursor([Symbol(x), Symbol(y), Symbol(z)]) == Some([x * 4 + y / 16, y % 16 * 16 + z / 4])
  {
    var s := [Symbol(x), Symbol(y), Symbol(z)];
    assert s + Padding(s) == [Symbol(x), Symbol(y), Symbol(z), '='];
    DecodeTwo(x, y, z);
  }

  lemma TwoEncode(x: nat, y: nat, low: nat, a: Byte, b: Byte)
    requires x < 64 && y < 64 && low < 64
    requires a / 4 == x && a % 4 * 16 + b / 16 == y && b % 16 * 4 == low
    ensures EncodeCursor([a, b]) == [Symbol(x), Symbol(y), Symbol(low)]
  {
    ShortCursor([a, b]);
  }

  lemma ThreeCharacters(x: nat, y: nat, z: nat, low: nat) returns (raw: Option<seq<Byte>>, text: string)
    requires x < 64 && y < 64 && z < 64 && low == z / 4 * 4
    ensures text == [Symbol(x), Symbol(y), Symbol(low)] && raw.Some?
    ensures Passes([Symbol(x), Symbol(y), Symbol(z)], raw, text)
  {
    var a: Byte, b: Byte := x * 4 + y / 16, y % 16 * 16 + z / 4;
    raw, text := Some([a, b]), [Symbol(x), Symbol(y), Symbol(low)];
    ThreeDecode(x, y, z);
    TwoEncode(x, y, low, a, b);
  }

  lemma ShortReencodes(cursor: string) returns (raw: Option<seq<Byte>>, text: string)
    requires |cursor| < 4 && Letters(cursor)
    ensures Passes(cursor, raw, text) && Faithful(cursor, raw, text)
  {
    forall c | c in cursor ensures Symbol(Value(c)) == c {
      SymbolUnique(c);
    }
    if |cursor| == 0 {
      assert cursor + Padding(cursor) == "";
      raw, text := Some([]), "";
    } else if |cursor| == 1 {
      assert (cursor + Padding(cursor))[..2][1] == '=';
      raw, text := None, "";
    } else if |cursor| == 2 {
      var x, y := Value(cursor[0]), Value(cursor[1]);
      assert cursor == [Symbol(x), Symbol(y)];
      raw, text := TwoCharacters(x, y, y / 16 * 16);
      SameSymbol(y, y / 16 * 16);
    } else {
      var x, y, z := Value(cursor[0]), Value(cursor[1]), Value(cursor[2]);
      assert cursor == [Symbol(x), Symbol(y), Symbol(z)];
      raw, text := ThreeCharacters(x, y, z, z / 4 * 4);
      SameSymbol(z, z / 4 * 4);
    }
  }

  lemma PassesStep(head: string, rest: string, part: Option<seq<Byte>>, tail: string) returns (raw: Option<seq<Byte>>)
    requires |head| == 4 && Letters(head) && Passes(rest, part, tail)
    ensures Passes(head + rest, raw, head + tail) && (raw.Some? <==> part.Some?)
  {
    var again;
    raw, again := CursorStep(head, rest);
  }

  lemma FaithfulStep(head: string, rest: string, part: Option<seq<Byte>>, tail: string, raw: Option<seq<Byte>>)
    requires |head| == 4 && Letters(head) && Faithful(rest, part, tail) && (raw.Some? <==> part.Some?)
    ensures Faithful(head + rest, raw, head + tail)
  {
    CanonicalStep(head, rest);
    SamePrefix(head, tail, rest);
  }

  /** A cursor of alphabet characters decodes unless one is left alone, and encodes back to itself exactly when canonical. */
  lemma {:induction false} ReencodesIff(cursor: string) returns (raw: Option<seq<Byte>>, text: string)
    requires Letters(cursor)
    ensures Passes(cursor, raw, text) && Faithful(cursor, raw, text)
    decreases |cursor|
  {
    if |cursor| < 4 {
      raw, text := ShortReencodes(cursor);
    } else {
      var head, rest := cursor[..4], cursor[4..];
      assert cursor == head + rest;
      var part, tail := ReencodesIff(rest);
      text := head + tail;
      raw := PassesStep(head, rest, part, tail);
      FaithfulStep(head, rest, part, tail, raw);
    }
  }
}
