/**
 The JSON text produced by `JSON.stringify`, which the system uses as its canonical serialisation:
 operation signatures, the audit hash chain and the newline-framed control channel all hash or send
 this text.  The encoder follows section 7 of RFC 8259 for strings.

 The main result is `EncodeInjective`: the text determines the value, whatever text follows it.
 */
module Json {

  /** The JSON values the system serialises.  Numbers are the integers (counts and ids). */
  datatype Json =
    | Null
    | Bool(b: bool)
    | Int(n: int)
    | Str(s: string)
    | Arr(items: seq<Json>)
    | Obj(members: seq<Member>)

  datatype Member = Member(key: string, value: Json)

  // ---------------------------------------------------------------------------------------------
  // Decimal numbers.
  // ---------------------------------------------------------------------------------------------

  predicate IsDigit(c: char) {
    '0' <= c <= '9'
  }

  function DigitChar(d: nat): (c: char)
    requires d < 10
    ensures IsDigit(c) && c as int - '0' as int == d
  {
    '0' + d as char
  }

  function NatText(n: nat): (s: string)
    ensures |s| > 0 && forall i :: 0 <= i < |s| ==> IsDigit(s[i])
  {
    if n < 10 then [DigitChar(n)] else NatText(n / 10) + [DigitChar(n % 10)]
  }

  /** `String(n)` for an integer. */
  function IntText(n: int): (s: string)
    ensures |s| > 0 && (IsDigit(s[0]) || s[0] == '-')
    ensures forall i :: 0 <= i < |s| ==> IsDigit(s[i]) || s[i] == '-'
  {
    if n < 0 then "-" + NatText(-n) else NatText(n)
  }

  function DigitsValue(s: string): int {
    if |s| == 0 then 0 else 10 * DigitsValue(s[..|s| - 1]) + (s[|s| - 1] as int - '0' as int)
  }

  lemma {:induction false} NatTextValue(n: nat)
    ensures DigitsValue(NatText(n)) == n
  {
    var s := NatText(n);
    if n < 10 {
      assert s[..|s| - 1] == [];
    } else {
      assert s[..|s| - 1] == NatText(n / 10);
      NatTextValue(n / 10);
    }
  }

  /** What may follow a number inside a JSON text: nothing that would extend it. */
  predicate EndsNumber(rest: string) {
    |rest| > 0 ==> !IsDigit(rest[0])
  }

  /** The length of the run of digits a text starts with. */
  function DigitRun(s: string): nat {
    if s == "" || !IsDigit(s[0]) then 0 else 1 + DigitRun(s[1..])
  }

  lemma {:induction false} DigitRunOf(ds: string, rest: string)
    requires forall i :: 0 <= i < |ds| ==> IsDigit(ds[i])
    requires EndsNumber(rest)
    ensures DigitRun(ds + rest) == |ds|
  {
    if ds == "" {
      assert ds + rest == rest;
    } else {
      assert (ds + rest)[1..] == ds[1..] + rest;
      DigitRunOf(ds[1..], rest);
    }
  }

  lemma Cancel<T>(a: seq<T>, x: seq<T>, b: seq<T>, y: seq<T>)
    requires a + x == b + y && |a| == |b|
    ensures a == b && x == y
  {
    assert a == (a + x)[..|a|] && b == (b + y)[..|b|];
    assert x == (a + x)[|a|..] && y == (b + y)[|b|..];
  }

  lemma Assoc<T>(a: seq<T>, b: seq<T>, c: seq<T>, d: seq<T>)
    ensures ((a + b) + c) + d == a + (b + (c + d))
  {
  }

  lemma NatTextInjective(m: nat, n: nat, x: string, y: string)
    requires NatText(m) + x == NatText(n) + y
    requires EndsNumber(x) && EndsNumber(y)
    ensures m == n && x == y
  {
    DigitRunOf(NatText(m), x);
    DigitRunOf(NatText(n), y);
    Cancel(NatText(m), x, NatText(n), y);
    NatTextValue(m);
    NatTextValue(n);
  }

  lemma IntTextInjective(m: int, n: int, x: string, y: string)
    requires IntText(m) + x == IntText(n) + y
    requires EndsNumber(x) && EndsNumber(y)
    ensures m == n && x == y
  {
    assert (IntText(m) + x)[0] == IntText(m)[0];
    assert (IntText(n) + y)[0] == IntText(n)[0];
    if m < 0 {
      assert NatText(-m) + x == (IntText(m) + x)[1..];
      assert NatText(-n) + y == (IntText(n) + y)[1..];
      NatTextInjective(-m, -n, x, y);
    } else {
      NatTextInjective(m, n, x, y);
    }
  }

  // ---------------------------------------------------------------------------------------------
  // Strings: quotation and escaping.
  // ---------------------------------------------------------------------------------------------

  function HexChar(d: nat): (c: char)
    requires d < 16
  {
    if d < 10 then '0' + d as char else 'a' + (d - 10) as char
  }

  lemma HexCharInjective(d: nat, e: nat)
    requires d < 16 && e < 16 && HexChar(d) == HexChar(e)
    ensures d == e
  {
    assert HexChar(d) as int == if d < 10 then 48 + d else 87 + d;
    assert HexChar(e) as int == if e < 10 then 48 + e else 87 + e;
  }

  /** One character of a JSON string: the two-character escapes, the `\u00xx` controls, or itself. */
  function EscapeChar(c: char): (s: string)
    ensures |s| > 0 && s[0] != '"'
  {
    if c == '"' then ['\\', '"']
    else if c == '\\' then ['\\', '\\']
    else if c as int == 8 then ['\\', 'b']
    else if c as int == 12 then ['\\', 'f']
    else if c as int == 10 then ['\\', 'n']
    else if c as int == 13 then ['\\', 'r']
    else if c as int == 9 then ['\\', 't']
    else if (c as int) < 0x20 then
      ['\\', 'u', '0', '0', HexChar(c as int / 16), HexChar(c as int % 16)]
    else [c]
  }

  function Escape(s: string): string
  {
    if s == "" then "" else EscapeChar(s[0]) + Escape(s[1..])
  }

  function Quote(s: string): (r: string)
    ensures |r| >= 2 && r[0] == '"'
  {
    ['"'] + Escape(s) + ['"']
  }

  lemma EscapeCharPrefixFree(c: char, d: char, x: string, y: string)
    requires EscapeChar(c) + x == EscapeChar(d) + y
    ensures c == d && x == y
  {
    var a, b := EscapeChar(c), EscapeChar(d);
    var whole := a + x;
    assert whole[0] == a[0] == b[0];
    if a[0] == '\\' {
      assert whole[1] == a[1] == b[1];
      assert |a| == |b|;
      if a[1] == 'u' {
        assert whole[4] == a[4] == b[4];
        assert whole[5] == a[5] == b[5];
        HexCharInjective(c as int / 16, d as int / 16);
        HexCharInjective(c as int % 16, d as int % 16);
        assert c as int == d as int;
      }
    }
    assert x == whole[|a|..] == y;
  }

  /** A string body followed by its closing quote and more text. */
  function Closed(s: string, x: string): string {
    Escape(s) + (['"'] + x)
  }

  lemma ClosedSplit(s: string, x: string)
    ensures s == "" ==> Closed(s, x) == ['"'] + x
    ensures s != "" ==> Closed(s, x) == EscapeChar(s[0]) + Closed(s[1..], x)
    ensures s != "" ==> Closed(s, x)[0] == EscapeChar(s[0])[0]
  {
  }

  lemma {:induction false} EscapeInjective(s: string, t: string, x: string, y: string)
    requires Closed(s, x) == Closed(t, y)
    ensures s == t && x == y
    decreases |s|
  {
    ClosedSplit(s, x);
    ClosedSplit(t, y);
    if s == "" || t == "" {
      assert s == t;
      Cancel(['"'], x, ['"'], y);
    } else {
      EscapeCharPrefixFree(s[0], t[0], Closed(s[1..], x), Closed(t[1..], y));
      EscapeInjective(s[1..], t[1..], x, y);
      assert s == [s[0]] + s[1..] && t == [t[0]] + t[1..];
    }
  }

  lemma QuoteInjective(s: string, t: string, x: string, y: string)
    requires Quote(s) + x == Quote(t) + y
    ensures s == t && x == y
  {
    assert Quote(s) + x == ['"'] + Closed(s, x);
    assert Quote(t) + y == ['"'] + Closed(t, y);
    Cancel(['"'], Closed(s, x), ['"'], Closed(t, y));
    EscapeInjective(s, t, x, y);
  }

  // ---------------------------------------------------------------------------------------------
  // Values.
  // ---------------------------------------------------------------------------------------------

  /** `JSON.stringify(j)`. */
  function Encode(j: Json): (r: string)
    ensures |r| > 0 && r[0] != ']' && r[0] != '}' && r[0] != ','
    decreases j, 2
  {
    match j
    case Null => "null"
    case Bool(b) => if b then "true" else "false"
    case Int(n) => IntText(n)
    case Str(s) => Quote(s)
    case Arr(items) => "[" + EncodeItems(items) + "]"
    case Obj(members) => "{" + EncodeMembers(members) + "}"
  }

  function EncodeItems(items: seq<Json>): (r: string)
    ensures items != [] ==> |r| > 0 && r[0] != ']'
    decreases items, 0
  {
    if items == [] then ""
    else if |items| == 1 then Encode(items[0])
    else Encode(items[0]) + "," + EncodeItems(items[1..])
  }

  function EncodeMembers(members: seq<Member>): (r: string)
    ensures members != [] ==> |r| > 0 && r[0] == '"'
    decreases members, 0
  {
    if members == [] then ""
    else
      var head := EncodeMember(members[0]);
      if |members| == 1 then head else head + "," + EncodeMembers(members[1..])
  }

  function EncodeMember(m: Member): (r: string)
    ensures |r| > 0 && r[0] == '"'
    decreases m, 3
  {
    Quote(m.key) + (":" + Encode(m.value))
  }

  /** The text of an array of strings, the form most of the canonical serialisations use. */
  function EncodeStrings(ss: seq<string>): string {
    Encode(Arr(Strings(ss)))
  }

  function Strings(ss: seq<string>): (r: seq<Json>)
    ensures |r| == |ss|
    ensures forall i :: 0 <= i < |ss| ==> r[i] == Str(ss[i])
  {
    seq(|ss|, i requires 0 <= i < |ss| => Str(ss[i]))
  }

  lemma StringsInjective(s: seq<string>, t: seq<string>)
    requires Strings(s) == Strings(t)
    ensures s == t
  {
    assert |s| == |Strings(s)| == |t|;
    forall i | 0 <= i < |s| ensures s[i] == t[i] {
      assert Strings(s)[i] == Str(s[i]) && Strings(t)[i] == Str(t[i]);
    }
  }

  /** The first character of the text tells the kind of value. */
  function Kind(j: Json): char {
    match j
    case Null => 'n'
    case Bool(b) => if b then 't' else 'f'
    case Int(_) => '0'
    case Str(_) => '"'
    case Arr(_) => '['
    case Obj(_) => '{'
  }

  lemma FirstCharTellsKind(j: Json)
    ensures j.Int? ==> IsDigit(Encode(j)[0]) || Encode(j)[0] == '-'
    ensures !j.Int? ==> Encode(j)[0] == Kind(j)
  {
    match j
    case Null =>
    case Bool(b) =>
    case Int(n) => assert Encode(j) == IntText(n);
    case Str(s) => assert Encode(j) == Quote(s);
    case Arr(items) =>
    case Obj(members) =>
  }

  /** The items of an array, its closing bracket and the text after it; and the part after the first item. */
  function ItemsThen(s: seq<Json>, x: string): string {
    EncodeItems(s) + ("]" + x)
  }

  function ItemsTail(s: seq<Json>, x: string): string
    requires s != []
  {
    if |s| == 1 then "]" + x else "," + ItemsThen(s[1..], x)
  }

  lemma ItemsSplit(s: seq<Json>, x: string)
    ensures s == [] ==> ItemsThen(s, x) == "]" + x
    ensures s != [] ==> ItemsThen(s, x) == Encode(s[0]) + ItemsTail(s, x)
    ensures |ItemsThen(s, x)| > 0 && (ItemsThen(s, x)[0] == ']' <==> s == [])
  {
    if |s| == 1 {
      assert ItemsThen(s, x) == Encode(s[0]) + ItemsTail(s, x);
    } else if |s| > 1 {
      Assoc(Encode(s[0]), ",", EncodeItems(s[1..]), "]" + x);
      assert ItemsThen(s, x) == Encode(s[0]) + ItemsTail(s, x);
    } else {
      assert ItemsThen(s, x) == "]" + x;
    }
  }

  function MembersThen(s: seq<Member>, x: string): string {
    EncodeMembers(s) + ("}" + x)
  }

  function MembersTail(s: seq<Member>, x: string): string
    requires s != []
  {
    if |s| == 1 then "}" + x else "," + MembersThen(s[1..], x)
  }

  lemma MembersSplit(s: seq<Member>, x: string)
    ensures s == [] ==> MembersThen(s, x) == "}" + x
    ensures s != [] ==> MembersThen(s, x) == EncodeMember(s[0]) + MembersTail(s, x)
    ensures |MembersThen(s, x)| > 0 && (MembersThen(s, x)[0] == '}' <==> s == [])
  {
    if |s| == 1 {
      assert MembersThen(s, x) == EncodeMember(s[0]) + MembersTail(s, x);
    } else if |s| > 1 {
      Assoc(EncodeMember(s[0]), ",", EncodeMembers(s[1..]), "}" + x);
      assert MembersThen(s, x) == EncodeMember(s[0]) + MembersTail(s, x);
    } else {
      assert MembersThen(s, x) == "}" + x;
    }
  }

  /**
   The text of a value determines the value and where it ends, whatever follows: no two different
   values, and no two different ways of cutting a stream, give the same text.
   */
  lemma {:induction false} EncodeInjective(a: Json, b: Json, x: string, y: string)
    requires Encode(a) + x == Encode(b) + y
    requires EndsNumber(x) && EndsNumber(y)
    ensures a == b && x == y
    decreases a, 2
  {
    SameKind(a, b, x, y);
    match a
    case Null => Cancel(Encode(a), x, Encode(b), y);
    case Bool(v) => Cancel(Encode(a), x, Encode(b), y);
    case Int(m) => IntTextInjective(m, b.n, x, y);
    case Str(s) => QuoteInjective(s, b.s, x, y);
    case Arr(items) =>
      ArrayText(items, x);
      ArrayText(b.items, y);
      Cancel("[", ItemsThen(items, x), "[", ItemsThen(b.items, y));
      ItemsInjective(items, b.items, x, y);
    case Obj(members) =>
      ObjectText(members, x);
      ObjectText(b.members, y);
      Cancel("{", MembersThen(members, x), "{", MembersThen(b.members, y));
      MembersInjective(members, b.members, x, y);
  }

  lemma SameKind(a: Json, b: Json, x: string, y: string)
    requires Encode(a) + x == Encode(b) + y
    ensures Kind(a) == Kind(b)
  {
    assert (Encode(a) + x)[0] == Encode(a)[0];
    assert (Encode(b) + y)[0] == Encode(b)[0];
    FirstCharTellsKind(a);
    FirstCharTellsKind(b);
  }

  lemma ArrayText(items: seq<Json>, x: string)
    ensures Encode(Arr(items)) + x == "[" + ItemsThen(items, x)
  {
    assert Encode(Arr(items)) == "[" + EncodeItems(items) + "]";
  }

  lemma ObjectText(members: seq<Member>, x: string)
    ensures Encode(Obj(members)) + x == "{" + MembersThen(members, x)
  {
    assert Encode(Obj(members)) == "{" + EncodeMembers(members) + "}";
  }

  lemma {:induction false} ItemsInjective(s: seq<Json>, t: seq<Json>, x: string, y: string)
    requires ItemsThen(s, x) == ItemsThen(t, y)
    ensures s == t && x == y
    decreases s, 0
  {
    ItemsSplit(s, x);
    ItemsSplit(t, y);
    if s == [] {
      Cancel("]", x, "]", y);
    } else {
      var xs, ys := ItemsTail(s, x), ItemsTail(t, y);
      EncodeInjective(s[0], t[0], xs, ys);
      assert s == [s[0]] + s[1..] && t == [t[0]] + t[1..];
      assert xs[0] == ys[0];
      if |s| == 1 {
        Cancel("]", x, "]", y);
      } else {
        Cancel(",", ItemsThen(s[1..], x), ",", ItemsThen(t[1..], y));
        ItemsInjective(s[1..], t[1..], x, y);
      }
    }
  }

  lemma {:induction false} MembersInjective(s: seq<Member>, t: seq<Member>, x: string, y: string)
    requires MembersThen(s, x) == MembersThen(t, y)
    ensures s == t && x == y
    decreases s, 0
  {
    MembersSplit(s, x);
    MembersSplit(t, y);
    if s == [] {
      Cancel("}", x, "}", y);
    } else {
      var xs, ys := MembersTail(s, x), MembersTail(t, y);
      MemberInjective(s[0], t[0], xs, ys);
      assert s == [s[0]] + s[1..] && t == [t[0]] + t[1..];
      assert xs[0] == ys[0];
      if |s| == 1 {
        Cancel("}", x, "}", y);
      } else {
        Cancel(",", MembersThen(s[1..], x), ",", MembersThen(t[1..], y));
        MembersInjective(s[1..], t[1..], x, y);
      }
    }
  }

  lemma {:induction false} MemberInjective(m: Member, n: Member, x: string, y: string)
    requires EncodeMember(m) + x == EncodeMember(n) + y
    requires EndsNumber(x) && EndsNumber(y)
    ensures m == n && x == y
    decreases m, 3
  {
    var mx, ny := Encode(m.value) + x, Encode(n.value) + y;
    assert EncodeMember(m) + x == Quote(m.key) + (":" + mx);
    assert EncodeMember(n) + y == Quote(n.key) + (":" + ny);
    QuoteInjective(m.key, n.key, ":" + mx, ":" + ny);
    Cancel(":", mx, ":", ny);
    EncodeInjective(m.value, n.value, x, y);
  }

  /** Two whole texts are equal only if the values are. */
  lemma EncodeDetermines(a: Json, b: Json)
    requires Encode(a) == Encode(b)
    ensures a == b
  {
    assert Encode(a) + "" == Encode(b) + "";
    EncodeInjective(a, b, "", "");
  }

  // ---------------------------------------------------------------------------------------------
  // Encoded text never contains a control character, so a newline always ends a message.
  // ---------------------------------------------------------------------------------------------

  predicate Printable(s: string) {
    forall i :: 0 <= i < |s| ==> s[i] as int >= 0x20
  }

  lemma PrintableConcat(s: string, t: string)
    requires Printable(s) && Printable(t)
    ensures Printable(s + t)
  {
  }

  lemma {:induction false} QuotePrintable(s: string)
    ensures Printable(Escape(s)) && Printable(Quote(s))
  {
    if s != "" {
      QuotePrintable(s[1..]);
      assert Printable(EscapeChar(s[0]));
      PrintableConcat(EscapeChar(s[0]), Escape(s[1..]));
    }
    PrintableConcat(['"'] + Escape(s), ['"']);
  }

  lemma {:induction false} EncodePrintable(j: Json)
    ensures Printable(Encode(j))
    decreases j, 2
  {
    match j
    case Null =>
    case Bool(b) =>
    case Int(n) => assert Encode(j) == IntText(n);
    case Str(s) => QuotePrintable(s);
    case Arr(items) =>
      ItemsPrintable(items);
      assert Encode(j) == "[" + EncodeItems(items) + "]";
    case Obj(members) =>
      MembersPrintable(members);
      assert Encode(j) == "{" + EncodeMembers(members) + "}";
  }

  lemma {:induction false} ItemsPrintable(items: seq<Json>)
    ensures Printable(EncodeItems(items))
    decreases items, 0
  {
    if items != [] {
      EncodePrintable(items[0]);
      ItemsPrintable(items[1..]);
      PrintableConcat(Encode(items[0]) + ",", EncodeItems(items[1..]));
    }
  }

  lemma {:induction false} MembersPrintable(members: seq<Member>)
    ensures Printable(EncodeMembers(members))
    decreases members, 0
  {
    if members != [] {
      QuotePrintable(members[0].key);
      EncodePrintable(members[0].value);
      PrintableConcat(Quote(members[0].key), ":" + Encode(members[0].value));
      MembersPrintable(members[1..]);
      PrintableConcat(EncodeMember(members[0]) + ",", EncodeMembers(members[1..]));
    }
  }
}
