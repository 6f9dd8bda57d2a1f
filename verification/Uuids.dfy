/** UUIDs: their octets, their canonical text (section 4 of RFC 9562) and the order of both. */
module Uuids {
  import opened Bytes
  import opened Lexicographic

  /** A UUID as its octets (sixteen in RFC 9562). */
  type Uuid = seq<Byte>

  function HexChar(n: nat): char
    requires n < 16
  {
    if n < 10 then '0' + n as char else 'a' + (n - 10) as char
  }

  function HexPair(n: Byte): string {
    [HexChar(n / 16), HexChar(n % 16)]
  }

  function Separator(i: nat): string {
    if i == 4 || i == 6 || i == 8 || i == 10 then "-" else ""
  }

  /** The text of the octets from position `i` on: two hex digits each, hyphens before octets 4, 6, 8 and 10. */
  function TextFrom(id: Uuid, i: nat): string {
    if id == [] then "" else Separator(i) + HexPair(id[0]) + TextFrom(id[1..], i + 1)
  }

  function UuidText(id: Uuid): string {
    TextFrom(id, 0)
  }

  function Octets(id: Uuid): seq<int> {
    seq(|id|, i requires 0 <= i < |id| => id[i])
  }

  predicate IdLess(a: Uuid, b: Uuid) {
    LexLess(Octets(a), Octets(b))
  }

  lemma LexPair(x: seq<int>, y: seq<int>, a: seq<int>, b: seq<int>)
    requires |x| == |y| == 2
    ensures LexLess(x + a, y + b)
      <==> x[0] < y[0] || (x[0] == y[0] && (x[1] < y[1] || (x[1] == y[1] && LexLess(a, b))))
  {
    assert (x + a)[1..] == [x[1]] + a && (y + b)[1..] == [y[1]] + b;
    assert ([x[1]] + a)[1..] == a && ([y[1]] + b)[1..] == b;
  }

  lemma TextHead(id: Uuid, i: nat)
    requires id != []
    ensures Codes(TextFrom(id, i)) == Codes(Separator(i)) + (Codes(HexPair(id[0])) + Codes(TextFrom(id[1..], i + 1)))
  {
    CodesSplit(Separator(i) + HexPair(id[0]), TextFrom(id[1..], i + 1));
    CodesSplit(Separator(i), HexPair(id[0]));
  }

  lemma {:induction false} TextOrder(a: Uuid, b: Uuid, i: nat)
    requires |a| == |b|
    ensures TextLess(TextFrom(a, i), TextFrom(b, i)) <==> IdLess(a, b)
  {
    if a != [] {
      var x, y := Codes(HexPair(a[0])), Codes(HexPair(b[0]));
      var s, t := Codes(TextFrom(a[1..], i + 1)), Codes(TextFrom(b[1..], i + 1));
      TextHead(a, i);
      TextHead(b, i);
      LexPrefix(Codes(Separator(i)), x + s, y + t);
      LexPair(x, y, s, t);
      TextOrder(a[1..], b[1..], i + 1);
      assert Octets(a)[1..] == Octets(a[1..]) && Octets(b)[1..] == Octets(b[1..]);
    }
  }

  /** Comparing `id::text` agrees with ordering by `id`. */
  lemma TextOrderIsIdOrder(a: Uuid, b: Uuid)
    requires |a| == |b|
    ensures TextLess(UuidText(a), UuidText(b)) <==> IdLess(a, b)
  {
    TextOrder(a, b, 0);
  }

  /** The first octet on which they differ is the smaller one of `a`, or `a` ends there. */
  predicate OctetsBefore(a: Uuid, b: Uuid) {
    exists n :: 0 <= n <= |a| && OctetsDifferAt(a, b, n)
  }

  predicate OctetsDifferAt(a: Uuid, b: Uuid, n: nat) {
    n <= |a| && n < |b| && (forall i :: 0 <= i < n ==> a[i] == b[i]) && (n == |a| || a[n] < b[n])
  }

  lemma IdLessIff(a: Uuid, b: Uuid)
    ensures IdLess(a, b) <==> OctetsBefore(a, b)
  {
    LexLessIff(Octets(a), Octets(b));
    forall n: nat ensures DiffersAt(Octets(a), Octets(b), n) <==> OctetsDifferAt(a, b, n) {
      if n <= |a| && n < |b| {
        forall i | 0 <= i < n ensures Octets(a)[i] == Octets(b)[i] <==> a[i] == b[i] {
        }
      }
    }
  }

  lemma IdTotal(a: Uuid, b: Uuid)
    ensures IdLess(a, b) || a == b || IdLess(b, a)
  {
    LexTotal(Octets(a), Octets(b));
    if Octets(a) == Octets(b) {
      OctetsInjective(a, b);
    }
  }

  lemma OctetsInjective(a: Uuid, b: Uuid)
    requires Octets(a) == Octets(b)
    ensures a == b
  {
    forall i | 0 <= i < |a| ensures a[i] == b[i] {
      assert Octets(a)[i] == Octets(b)[i];
    }
  }

  // The canonical form -------------------------------------------------------------

  const HEX := "0123456789abcdef"

  lemma HexCharIs(n: nat)
    requires n < 16
    ensures HexChar(n) == HEX[n]
  {
  }

  /** Where the digits of octet `k` stand in the text of the octets from position `i` on. */
  function DigitsAt(i: nat, k: nat): nat
    decreases k
  {
    |Separator(i)| + if k == 0 then 0 else 2 + DigitsAt(i + 1, k - 1)
  }

  /** The digits of an octet, and the hyphen before it where there is one. */
  ghost predicate ShowsOctet(text: string, p: nat, b: Byte, hyphen: bool) {
    && p + 2 <= |text| && text[p] == HEX[b / 16] && text[p + 1] == HEX[b % 16]
    && (hyphen ==> p > 0 && text[p - 1] == '-')
  }

  lemma FirstOctet(b: Byte, i: nat, rest: string)
    ensures ShowsOctet(Separator(i) + HexPair(b) + rest, |Separator(i)|, b, Separator(i) == "-")
  {
    HexCharIs(b / 16);
    HexCharIs(b % 16);
  }

  lemma {:induction false} TextHasDigits(id: Uuid, i: nat, k: nat)
    requires k < |id|
    ensures ShowsOctet(TextFrom(id, i), DigitsAt(i, k), id[k], Separator(i + k) == "-")
    decreases k
  {
    if k == 0 {
      FirstOctet(id[0], i, TextFrom(id[1..], i + 1));
    } else {
      var p := DigitsAt(i + 1, k - 1);
      TextHasDigits(id[1..], i + 1, k - 1);
      assert DigitsAt(i, k) == |Separator(i) + HexPair(id[0])| + p;
      ShownBehind(Separator(i) + HexPair(id[0]), TextFrom(id[1..], i + 1), p, id[k], Separator(i + k) == "-");
    }
  }

  lemma ShownBehind(head: string, rest: string, p: nat, b: Byte, hyphen: bool)
    requires ShowsOctet(rest, p, b, hyphen)
    ensures ShowsOctet(head + rest, |head| + p, b, hyphen)
  {
  }

  lemma {:induction false} TextLength(id: Uuid, i: nat)
    requires id != []
    ensures |TextFrom(id, i)| == DigitsAt(i, |id| - 1) + 2
  {
    if |id| > 1 {
      TextLength(id[1..], i + 1);
    }
  }

  /** Where the digits of octet `k` stand in the text of an identifier. */
  function Place(k: nat): nat {
    2 * k + if k < 4 then 0 else if k < 6 then 1 else if k < 8 then 2 else if k < 10 then 3 else 4
  }

  lemma {:induction false} PlaceFrom(i: nat, k: nat)
    ensures DigitsAt(i, k) == Place(i + k) - Place(i) + |Separator(i)|
    decreases k
  {
    if k > 0 {
      PlaceFrom(i + 1, k - 1);
    }
  }

  lemma TextAt(id: Uuid, k: nat)
    requires |id| == 16 && k < 16
    ensures ShowsOctet(UuidText(id), Place(k), id[k], k == 4 || k == 6 || k == 8 || k == 10)
  {
    PlaceFrom(0, k);
    assert Place(0) == 0 && |Separator(0)| == 0 && DigitsAt(0, k) == Place(k);
    assert Separator(0 + k) == "-" <==> k == 4 || k == 6 || k == 8 || k == 10;
    TextHasDigits(id, 0, k);
  }

  /** The text is 8-4-4-4-12 lower-case digits with hyphens between, two digits for each octet. */
  lemma TextIsCanonical(id: Uuid)
    requires |id| == 16
    ensures |UuidText(id)| == 36
    ensures forall k :: 0 <= k < 16 ==> ShowsOctet(UuidText(id), Place(k), id[k], k == 4 || k == 6 || k == 8 || k == 10)
  {
    assert |UuidText(id)| == 36 by {
      TextLength(id, 0);
      PlaceFrom(0, 15);
    }
    forall k | 0 <= k < 16
      ensures ShowsOctet(UuidText(id), Place(k), id[k], k == 4 || k == 6 || k == 8 || k == 10)
    {
      TextAt(id, k);
    }
  }
}
