/** JSON values and the text `json.dumps` writes for them. */
module JsonText {

  datatype Json =
    | Null
    | Bool(b: bool)
    | Num(n: int)
    | Str(s: string)
    | Arr(items: seq<Json>)
    | Obj(members: seq<Member>)

  datatype Member = Member(name: string, value: Json)

  function Digits(n: nat): (s: string)
    ensures |s| > 0
    ensures forall i :: 0 <= i < |s| ==> '0' <= s[i] <= '9'
  {
    if n < 10 then [DigitChar(n)] else Digits(n / 10) + [DigitChar(n % 10)]
  }

  function DigitChar(d: nat): (c: char)
    requires d < 10
    ensures '0' <= c <= '9'
  {
    '0' + d as char
  }

  function Quote(s: string): string {
    "\"" + Escape(s) + "\""
  }

  function Escape(s: string): string {
    if s == [] then ""
    else (if s[0] == '"' || s[0] == '\\' then ['\\', s[0]] else [s[0]]) + Escape(s[1..])
  }

  function Dumps(j: Json): string {
    match j
    case Null => "null"
    case Bool(b) => if b then "true" else "false"
    case Num(n) => if n < 0 then "-" + Digits(-n) else Digits(n)
    case Str(s) => Quote(s)
    case Arr(items) => "[" + DumpsItems(items) + "]"
    case Obj(members) => "{" + DumpsMembers(members) + "}"
  }

  function DumpsItems(items: seq<Json>): string {
    if items == [] then ""
    else Dumps(items[0]) + (if |items| == 1 then "" else ", " + DumpsItems(items[1..]))
  }

  function DumpsMembers(members: seq<Member>): string {
    if members == [] then ""
    else Quote(members[0].name) + ": " + Dumps(members[0].value)
         + (if |members| == 1 then "" else ", " + DumpsMembers(members[1..]))
  }

  /** No JSON text starts with a lower-case c or i, the first letters of the idempotency store's own replies. */
  lemma DumpsFirstChar(j: Json)
    ensures |Dumps(j)| > 0
    ensures Dumps(j)[0] != 'c' && Dumps(j)[0] != 'i'
  {
  }

  lemma KnownNumber()
    ensures Dumps(Num(-20)) == "-20"
  {
    assert Digits(2) == "2" && Digits(20) == "20";
  }

  lemma KnownItems()
    ensures DumpsItems([Num(-20), Null, Bool(true)]) == "-20, null, true"
  {
    KnownNumber();
    assert [Null, Bool(true)][1..] == [Bool(true)];
    assert DumpsItems([Bool(true)]) == "true";
    assert DumpsItems([Null, Bool(true)]) == "null, true";
    assert [Num(-20), Null, Bool(true)][1..] == [Null, Bool(true)];
  }

  lemma KnownQuote()
    ensures Quote("x\"\\") == "\"x\\\"\\\\\""
  {
    assert "x\"\\"[1..] == "\"\\" && "\"\\"[1..] == "\\" && "\\"[1..] == "";
    assert Escape("\\") == "\\\\";
    assert Escape("\"\\") == "\\\"\\\\";
  }

  lemma KnownMembers()
    ensures DumpsMembers([Member("a", Bool(false)), Member("b", Arr([]))]) == "\"a\": false, \"b\": []"
  {
    assert Quote("a") == "\"a\"" by {
      assert Escape("a") == "a";
    }
    assert Quote("b") == "\"b\"" by {
      assert Escape("b") == "b";
    }
    assert DumpsItems([]) == "";
    assert DumpsMembers([Member("b", Arr([]))]) == "\"b\": []";
    assert [Member("a", Bool(false)), Member("b", Arr([]))][1..] == [Member("b", Arr([]))];
  }

  // ---------------------------------------------------------------------
  // The text determines the value
  // ---------------------------------------------------------------------

  /** What may follow a value inside a larger text. */
  predicate Stops(s: string) {
    s != "" ==> s[0] == ',' || s[0] == ']' || s[0] == '}'
  }

  lemma SameSplit(a: string, s: string, b: string, t: string)
    requires a + s == b + t && |a| == |b|
    ensures a == b && s == t
  {
    assert a == (a + s)[..|a|] && b == (b + t)[..|b|];
    assert s == (a + s)[|a|..] && t == (b + t)[|b|..];
  }

  lemma {:induction false} SameDigits(m: nat, n: nat)
    requires Digits(m) == Digits(n)
    ensures m == n
  {
    if m >= 10 && n >= 10 {
      SameSplit(Digits(m / 10), [DigitChar(m % 10)], Digits(n / 10), [DigitChar(n % 10)]);
      SameDigits(m / 10, n / 10);
      assert DigitChar(m % 10) == [DigitChar(m % 10)][0] == [DigitChar(n % 10)][0];
    } else {
      assert |Digits(m)| == 1 <==> m < 10;
      assert Digits(m)[0] == Digits(n)[0];
    }
  }

  /** How many digits a text starts with. */
  function Run(s: string): nat {
    if s == "" || !('0' <= s[0] <= '9') then 0 else 1 + Run(s[1..])
  }

  lemma {:induction false} RunOfDigits(x: string, s: string)
    requires (forall i :: 0 <= i < |x| ==> '0' <= x[i] <= '9') && Stops(s)
    ensures Run(x + s) == |x|
  {
    if x == "" {
      assert x + s == s;
    } else {
      assert (x + s)[1..] == x[1..] + s;
      RunOfDigits(x[1..], s);
    }
  }

  /** A number ends where no digit follows. */
  lemma SameNumber(m: nat, n: nat, s: string, t: string)
    requires Digits(m) + s == Digits(n) + t && Stops(s) && Stops(t)
    ensures m == n && s == t
  {
    RunOfDigits(Digits(m), s);
    RunOfDigits(Digits(n), t);
    SameSplit(Digits(m), s, Digits(n), t);
    SameDigits(m, n);
  }

  /** The escaped first character, and the text behind it. */
  function FirstEscaped(a: string): string
    requires a != ""
  {
    if a[0] == '"' || a[0] == '\\' then ['\\', a[0]] else [a[0]]
  }

  lemma EscapeUnfold(a: string, s: string)
    ensures a == "" ==> Escape(a) + ("\"" + s) == "\"" + s
    ensures a != "" ==> Escape(a) + ("\"" + s) == FirstEscaped(a) + (Escape(a[1..]) + ("\"" + s))
    ensures (Escape(a) + ("\"" + s))[0] == '"' <==> a == ""
  {
  }

  lemma {:induction false} SameEscape(a: string, b: string, s: string, t: string)
    requires Escape(a) + ("\"" + s) == Escape(b) + ("\"" + t)
    ensures a == b && s == t
  {
    EscapeUnfold(a, s);
    EscapeUnfold(b, t);
    if a == "" {
      SameSplit("\"", s, "\"", t);
    } else {
      var p, q := Escape(a[1..]) + ("\"" + s), Escape(b[1..]) + ("\"" + t);
      assert FirstEscaped(a)[0] == (FirstEscaped(a) + p)[0] && FirstEscaped(b)[0] == (FirstEscaped(b) + q)[0];
      SameSplit(FirstEscaped(a), p, FirstEscaped(b), q);
      SameEscape(a[1..], b[1..], s, t);
      assert a[0] == b[0];
      assert a == [a[0]] + a[1..] && b == [b[0]] + b[1..];
    }
  }

  lemma SameQuote(a: string, b: string, s: string, t: string)
    requires Quote(a) + s == Quote(b) + t
    ensures a == b && s == t
  {
    assert Quote(a) + s == "\"" + (Escape(a) + ("\"" + s));
    assert Quote(b) + t == "\"" + (Escape(b) + ("\"" + t));
    SameSplit("\"", Escape(a) + ("\"" + s), "\"", Escape(b) + ("\"" + t));
    SameEscape(a, b, s, t);
  }

  /** The first character tells the kind of a value. */
  predicate StartsAs(j: Json, c: char) {
    match j
    case Null => c == 'n'
    case Bool(b) => c == if b then 't' else 'f'
    case Num(n) => if n < 0 then c == '-' else '0' <= c <= '9'
    case Str(_) => c == '"'
    case Arr(_) => c == '['
    case Obj(_) => c == '{'
  }

  lemma DumpsStart(j: Json)
    ensures |Dumps(j)| > 0 && StartsAs(j, Dumps(j)[0])
  {
  }

  lemma SameKind(a: Json, b: Json, c: char)
    requires StartsAs(a, c) && StartsAs(b, c)
    ensures match a
      case Null => b.Null?
      case Bool(x) => b == a
      case Num(m) => b.Num? && (m < 0 <==> b.n < 0)
      case Str(_) => b.Str?
      case Arr(_) => b.Arr?
      case Obj(_) => b.Obj?
  {
  }

  /** What follows the first item. */
  function AfterItem(items: seq<Json>, s: string): string
    requires items != []
  {
    if |items| == 1 then "]" + s else ", " + (DumpsItems(items[1..]) + ("]" + s))
  }

  lemma Assoc(a: string, b: string, c: string)
    ensures a + b + c == a + (b + c)
  {
  }

  lemma FirstOf(a: string, b: string)
    requires a != ""
    ensures (a + b)[0] == a[0]
  {
  }

  lemma ItemsText(items: seq<Json>)
    requires items != []
    ensures DumpsItems(items) == Dumps(items[0]) + (if |items| == 1 then "" else ", " + DumpsItems(items[1..]))
  {
  }

  lemma ItemsUnfold(items: seq<Json>, s: string)
    ensures items == [] ==> DumpsItems(items) + ("]" + s) == "]" + s
    ensures items != [] ==> DumpsItems(items) + ("]" + s) == Dumps(items[0]) + AfterItem(items, s)
    ensures (DumpsItems(items) + ("]" + s))[0] == ']' <==> items == []
  {
    if items != [] {
      var first, rest := Dumps(items[0]), if |items| == 1 then "" else ", " + DumpsItems(items[1..]);
      ItemsText(items);
      Assoc(first, rest, "]" + s);
      if |items| > 1 {
        Assoc(", ", DumpsItems(items[1..]), "]" + s);
      }
      DumpsStart(items[0]);
      FirstOf(first, AfterItem(items, s));
    } else {
      assert "" + ("]" + s) == "]" + s;
    }
  }

  /** What follows the first member's name. */
  function AfterName(members: seq<Member>, s: string): string
    requires members != []
  {
    ": " + (Dumps(members[0].value) + AfterMember(members, s))
  }

  function AfterMember(members: seq<Member>, s: string): string
    requires members != []
  {
    if |members| == 1 then "}" + s else ", " + (DumpsMembers(members[1..]) + ("}" + s))
  }

  lemma MembersText(members: seq<Member>)
    requires members != []
    ensures DumpsMembers(members) == Quote(members[0].name) + ": " + Dumps(members[0].value)
      + (if |members| == 1 then "" else ", " + DumpsMembers(members[1..]))
  {
  }

  lemma MembersUnfold(members: seq<Member>, s: string)
    ensures members == [] ==> DumpsMembers(members) + ("}" + s) == "}" + s
    ensures members != [] ==> DumpsMembers(members) + ("}" + s) == Quote(members[0].name) + AfterName(members, s)
    ensures (DumpsMembers(members) + ("}" + s))[0] == '}' <==> members == []
  {
    if members != [] {
      var name, value := Quote(members[0].name), Dumps(members[0].value);
      var rest := if |members| == 1 then "" else ", " + DumpsMembers(members[1..]);
      MembersText(members);
      Assoc(name + ": " + value, rest, "}" + s);
      Assoc(name + ": ", value, rest + ("}" + s));
      Assoc(name, ": ", value + (rest + ("}" + s)));
      if |members| > 1 {
        Assoc(", ", DumpsMembers(members[1..]), "}" + s);
      }
      FirstOf(name, AfterName(members, s));
    } else {
      assert "" + ("}" + s) == "}" + s;
    }
  }

  lemma {:induction false} SameItems(xs: seq<Json>, ys: seq<Json>, s: string, t: string)
    requires DumpsItems(xs) + ("]" + s) == DumpsItems(ys) + ("]" + t)
    ensures xs == ys && s == t
    decreases xs
  {
    ItemsUnfold(xs, s);
    ItemsUnfold(ys, t);
    if xs == [] {
      SameSplit("]", s, "]", t);
    } else {
      var p, q := AfterItem(xs, s), AfterItem(ys, t);
      SameText(xs[0], ys[0], p, q);
      assert p[0] == (if |xs| == 1 then ']' else ',') && q[0] == (if |ys| == 1 then ']' else ',');
      if |xs| == 1 {
        SameSplit("]", s, "]", t);
      } else {
        SameSplit(", ", DumpsItems(xs[1..]) + ("]" + s), ", ", DumpsItems(ys[1..]) + ("]" + t));
        SameItems(xs[1..], ys[1..], s, t);
      }
      assert xs == [xs[0]] + xs[1..] && ys == [ys[0]] + ys[1..];
    }
  }

  lemma {:induction false} SameMembers(xs: seq<Member>, ys: seq<Member>, s: string, t: string)
    requires DumpsMembers(xs) + ("}" + s) == DumpsMembers(ys) + ("}" + t)
    ensures xs == ys && s == t
    decreases xs
  {
    MembersUnfold(xs, s);
    MembersUnfold(ys, t);
    if xs == [] {
      SameSplit("}", s, "}", t);
    } else {
      var p, q := AfterMember(xs, s), AfterMember(ys, t);
      SameQuote(xs[0].name, ys[0].name, AfterName(xs, s), AfterName(ys, t));
      SameSplit(": ", Dumps(xs[0].value) + p, ": ", Dumps(ys[0].value) + q);
      SameText(xs[0].value, ys[0].value, p, q);
      assert p[0] == (if |xs| == 1 then '}' else ',') && q[0] == (if |ys| == 1 then '}' else ',');
      if |xs| == 1 {
        SameSplit("}", s, "}", t);
      } else {
        SameSplit(", ", DumpsMembers(xs[1..]) + ("}" + s), ", ", DumpsMembers(ys[1..]) + ("}" + t));
        SameMembers(xs[1..], ys[1..], s, t);
      }
      assert xs == [xs[0]] + xs[1..] && ys == [ys[0]] + ys[1..];
    }
  }

  lemma ArrUnfold(items: seq<Json>, s: string)
    ensures Dumps(Arr(items)) + s == "[" + (DumpsItems(items) + ("]" + s))
  {
  }

  lemma ObjUnfold(members: seq<Member>, s: string)
    ensures Dumps(Obj(members)) + s == "{" + (DumpsMembers(members) + ("}" + s))
  {
  }

  lemma NegativeUnfold(n: nat, s: string)
    requires n > 0
    ensures Dumps(Num(0 - n)) + s == "-" + (Digits(n) + s)
  {
  }

  /** Equal texts, whatever may follow them, are texts of equal values. */
  lemma {:induction false} SameText(a: Json, b: Json, s: string, t: string)
    requires Dumps(a) + s == Dumps(b) + t && Stops(s) && Stops(t)
    ensures a == b && s == t
    decreases a
  {
    DumpsStart(a);
    DumpsStart(b);
    assert (Dumps(a) + s)[0] == Dumps(a)[0] && (Dumps(b) + t)[0] == Dumps(b)[0];
    SameKind(a, b, Dumps(a)[0]);
    match a {
      case Null => SameSplit(Dumps(a), s, Dumps(b), t);
      case Bool(_) => SameSplit(Dumps(a), s, Dumps(b), t);
      case Num(m) => SameNum(m, b.n, s, t);
      case Str(x) => SameQuote(x, b.s, s, t);
      case Arr(xs) =>
        ArrUnfold(xs, s);
        ArrUnfold(b.items, t);
        SameSplit("[", DumpsItems(xs) + ("]" + s), "[", DumpsItems(b.items) + ("]" + t));
        SameItems(xs, b.items, s, t);
      case Obj(xs) =>
        ObjUnfold(xs, s);
        ObjUnfold(b.members, t);
        SameSplit("{", DumpsMembers(xs) + ("}" + s), "{", DumpsMembers(b.members) + ("}" + t));
        SameMembers(xs, b.members, s, t);
    }
  }

  lemma SameNum(m: int, n: int, s: string, t: string)
    requires Dumps(Num(m)) + s == Dumps(Num(n)) + t && Stops(s) && Stops(t) && (m < 0 <==> n < 0)
    ensures m == n && s == t
  {
    if m < 0 {
      NegativeUnfold(-m, s);
      NegativeUnfold(-n, t);
      SameSplit("-", Digits(-m) + s, "-", Digits(-n) + t);
      SameNumber(-m, -n, s, t);
    } else {
      SameNumber(m, n, s, t);
    }
  }

  /** Different values have different texts, so the text can be read back. */
  lemma DumpsInjective(a: Json, b: Json)
    requires Dumps(a) == Dumps(b)
    ensures a == b
  {
    assert Dumps(a) + "" == Dumps(a) && Dumps(b) + "" == Dumps(b);
    SameText(a, b, "", "");
  }

  /** Reading text back. */
  ghost function Loads(s: string): Json {
    if exists j :: Dumps(j) == s then (var j :| Dumps(j) == s; j) else Null
  }

  lemma LoadsDumps(j: Json)
    ensures Loads(Dumps(j)) == j
  {
    DumpsInjective(Loads(Dumps(j)), j);
  }
}
