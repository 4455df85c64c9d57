/** JSON trees and the text of a tree whose members are written in the order given. */
module JsonText {
  import opened Order
  import opened Decimal
  import opened Splitting

  /** A number as serde_json holds it; a float is known by the text it prints. */
  datatype Number = Whole(v: int) | Float(text: string)

  datatype Member = Member(key: string, value: Json)

  datatype Json =
    | Null
    | Bool(b: bool)
    | Num(n: Number)
    | Str(s: string)
    | Arr(items: seq<Json>)
    | Obj(members: seq<Member>)

  // ---- Numbers as section 6 of RFC 8259 has them ----

  predicate IntToken(t: string) {
    var digits := if t != [] && t[0] == '-' then t[1..] else t;
    digits != [] && AllDigits(digits) && (|digits| == 1 || digits[0] != '0')
  }

  predicate FracToken(t: string) {
    |t| >= 2 && t[0] == '.' && AllDigits(t[1..])
  }

  predicate ExpToken(t: string) {
    && |t| >= 2 && (t[0] == 'e' || t[0] == 'E')
    && var digits := if t[1] == '+' || t[1] == '-' then t[2..] else t[1..];
    digits != [] && AllDigits(digits)
  }

  /** An integer, then a fraction, an exponent or both, which end at `i`, `j` and the end. */
  predicate FloatParts(t: string, i: nat, j: nat) {
    && i <= j <= |t| && i < |t| && IntToken(t[..i])
    && (i == j || FracToken(t[i..j]))
    && (j == |t| || ExpToken(t[j..]))
  }

  predicate FloatToken(t: string) {
    exists i: nat, j: nat :: i <= j <= |t| && FloatParts(t, i, j)
  }

  function IntValue(t: string): int
    requires IntToken(t)
  {
    if t[0] == '-' then 0 - NatValue(t[1..]) else NatValue(t)
  }

  /** An integer in range, or a float by its text. */
  predicate ValidNumber(n: Number) {
    match n
    case Whole(v) => -0x8000_0000_0000_0000 <= v < 0x1_0000_0000_0000_0000
    case Float(t) => FloatToken(t)
  }

  predicate Readable(v: Json) {
    match v
    case Num(n) => ValidNumber(n)
    case Arr(items) => forall i :: 0 <= i < |items| ==> Readable(items[i])
    case Obj(ms) => forall i :: 0 <= i < |ms| ==> Readable(ms[i].value)
    case _ => true
  }

  function NumText(n: Number): string {
    match n
    case Whole(v) => IntText(v)
    case Float(t) => t
  }

  function Escape(c: char): (r: string)
    ensures r != []
  {
    if c == '\"' then "\\\""
    else if c == '\\' then "\\\\"
    else if c == '\n' then "\\n"
    else if c == '\r' then "\\r"
    else if c == '\t' then "\\t"
    else if c as int == 8 then "\\b"
    else if c as int == 12 then "\\f"
    else if c as int < 0x20 then "\\u00" + [HexDigit(c as nat / 16), HexDigit(c as nat % 16)]
    else [c]
  }

  function EscapeAll(s: string): string {
    if s == [] then [] else Escape(s[0]) + EscapeAll(s[1..])
  }

  function Quote(s: string): string {
    "\"" + EscapeAll(s) + "\""
  }

  function Print(v: Json): string
    decreases v
  {
    match v
    case Null => "null"
    case Bool(b) => if b then "true" else "false"
    case Num(n) => NumText(n)
    case Str(s) => Quote(s)
    case Arr(items) => "[" + PrintItems(items) + "]"
    case Obj(ms) => "{" + PrintMembers(ms) + "}"
  }

  function PrintItems(items: seq<Json>): string
    decreases items
  {
    if items == [] then ""
    else if |items| == 1 then Print(items[0])
    else Print(items[0]) + "," + PrintItems(items[1..])
  }

  function PrintMember(m: Member): string
    decreases m
  {
    Quote(m.key) + ":" + Print(m.value)
  }

  function PrintMembers(ms: seq<Member>): string
    decreases ms
  {
    if ms == [] then ""
    else if |ms| == 1 then PrintMember(ms[0])
    else PrintMember(ms[0]) + "," + PrintMembers(ms[1..])
  }

  // ---- A reader of JSON text, after sections 2 to 7 of RFC 8259 ----

  predicate IsSpace(c: char) {
    c == ' ' || c == '\t' || c == '\n' || c == '\r'
  }

  function Skip(s: string): (r: string)
    ensures |r| <= |s|
  {
    if s != [] && IsSpace(s[0]) then Skip(s[1..]) else s
  }

  predicate NumChar(c: char) {
    IsDigit(c) || c == '-' || c == '+' || c == '.' || c == 'e' || c == 'E'
  }

  /** How many characters at the start can belong to a number. */
  function NumLength(s: string): (n: nat)
    ensures n <= |s|
  {
    if s != [] && NumChar(s[0]) then 1 + NumLength(s[1..]) else 0
  }

  function ReadNumber(s: string): (r: Option<(Json, string)>)
    ensures r.Some? ==> |r.value.1| < |s|
  {
    var n := NumLength(s);
    var t := s[..n];
    if IntToken(t) then Some((Num(Whole(IntValue(t))), s[n..]))
    else if t != [] && FloatToken(t) then Some((Num(Float(t)), s[n..]))
    else None
  }

  /** The character a two-character escape stands for. */
  function ShortEscape(c: char): Option<char> {
    if c == '\"' || c == '\\' || c == '/' then Some(c)
    else if c == 'b' then Some(8 as char)
    else if c == 'f' then Some(12 as char)
    else if c == 'n' then Some('\n')
    else if c == 'r' then Some('\r')
    else if c == 't' then Some('\t')
    else None
  }

  /** The unit of a six-character escape at the start. */
  function HexUnit(s: string): (r: Option<nat>)
    ensures r.Some? ==> r.value < 0x10000 && |s| >= 6
  {
    if |s| >= 6 && s[0] == '\\' && s[1] == 'u' && IsHex(s[2]) && IsHex(s[3]) && IsHex(s[4]) && IsHex(s[5]) then
      Some(4096 * HexValue(s[2]) + 256 * HexValue(s[3]) + 16 * HexValue(s[4]) + HexValue(s[5]))
    else None
  }

  function Prepend(c: char, r: Option<(string, string)>): Option<(string, string)> {
    if r.None? then None else Some(([c] + r.value.0, r.value.1))
  }

  /** Reads the rest of a quoted string, up to its closing quote, and what follows. */
  function Unescape(s: string): (r: Option<(string, string)>)
    ensures r.Some? ==> |r.value.1| < |s|
    decreases |s|
  {
    if s == [] then None
    else if s[0] == '\"' then Some(("", s[1..]))
    else if s[0] != '\\' then if s[0] as int < 0x20 then None else Prepend(s[0], Unescape(s[1..]))
    else if |s| >= 2 && ShortEscape(s[1]).Some? then Prepend(ShortEscape(s[1]).value, Unescape(s[2..]))
    else
      match HexUnit(s)
      case None => None
      case Some(n) =>
        if n < 0xD800 || n >= 0xE000 then Prepend(n as char, Unescape(s[6..]))
        else if n >= 0xDC00 then None
        else
          match HexUnit(s[6..])
          case None => None
          case Some(m) =>
            if 0xDC00 <= m < 0xE000 then
              Prepend((0x10000 + (n - 0xD800) * 0x400 + (m - 0xDC00)) as char, Unescape(s[12..]))
            else None
  }

  function ReadValue(s: string): (r: Option<(Json, string)>)
    ensures r.Some? ==> |r.value.1| < |s|
    decreases |s|, 1
  {
    var t := Skip(s);
    if HasPrefix(t, "null") then Some((Null, t[4..]))
    else if HasPrefix(t, "true") then Some((Bool(true), t[4..]))
    else if HasPrefix(t, "false") then Some((Bool(false), t[5..]))
    else if t == [] then None
    else if t[0] == '\"' then
      match Unescape(t[1..])
      case None => None
      case Some((x, r)) => Some((Str(x), r))
    else if t[0] == '[' then
      var u := Skip(t[1..]);
      if u != [] && u[0] == ']' then Some((Arr([]), u[1..]))
      else
        match ReadItems(t[1..])
        case None => None
        case Some((items, r)) => Some((Arr(items), r))
    else if t[0] == '{' then
      var u := Skip(t[1..]);
      if u != [] && u[0] == '}' then Some((Obj([]), u[1..]))
      else
        match ReadMembers(t[1..])
        case None => None
        case Some((ms, r)) => Some((Obj(ms), r))
    else ReadNumber(t)
  }

  /** One or more values up to the closing bracket. */
  function ReadItems(s: string): (r: Option<(seq<Json>, string)>)
    ensures r.Some? ==> |r.value.1| < |s|
    decreases |s|, 2
  {
    match ReadValue(s)
    case None => None
    case Some((v, q)) =>
      var u := Skip(q);
      if u == [] then None
      else if u[0] == ']' then Some(([v], u[1..]))
      else if u[0] != ',' then None
      else
        match ReadItems(u[1..])
        case None => None
        case Some((items, r)) => Some(([v] + items, r))
  }

  /** A key, a colon and a value. */
  function ReadMember(s: string): (r: Option<(Member, string)>)
    ensures r.Some? ==> |r.value.1| < |s|
    decreases |s|, 2
  {
    var t := Skip(s);
    if t == [] || t[0] != '\"' then None
    else
      match Unescape(t[1..])
      case None => None
      case Some((key, q)) =>
        var u := Skip(q);
        if u == [] || u[0] != ':' then None
        else
          match ReadValue(u[1..])
          case None => None
          case Some((v, r)) => Some((Member(key, v), r))
  }

  function ReadMembers(s: string): (r: Option<(seq<Member>, string)>)
    ensures r.Some? ==> |r.value.1| < |s|
    decreases |s|, 3
  {
    match ReadMember(s)
    case None => None
    case Some((m, q)) =>
      var u := Skip(q);
      if u == [] then None
      else if u[0] == '}' then Some(([m], u[1..]))
      else if u[0] != ',' then None
      else
        match ReadMembers(u[1..])
        case None => None
        case Some((ms, r)) => Some(([m] + ms, r))
  }

  /** The whole text is one value. */
  function ReadText(s: string): Option<Json> {
    match ReadValue(s)
    case None => None
    case Some((v, r)) => if Skip(r) == [] then Some(v) else None
  }

  // ---- It reads back what is printed ----

  /** Text that cannot go on with a number. */
  predicate Stops(r: string) {
    r == [] || !NumChar(r[0])
  }

  predicate AllNum(s: string) {
    forall i :: 0 <= i < |s| ==> NumChar(s[i])
  }

  lemma {:induction false} TokenEnds(t: string, r: string)
    requires AllNum(t) && Stops(r)
    ensures NumLength(t + r) == |t| && (t + r)[..|t|] == t && (t + r)[|t|..] == r
  {
    if t == [] {
      assert t + r == r;
    } else {
      assert (t + r)[1..] == t[1..] + r;
      TokenEnds(t[1..], r);
    }
  }

  lemma {:induction false} NatTextLeads(n: nat)
    ensures n > 0 ==> NatText(n)[0] != '0'
  {
    if n >= 10 {
      NatTextLeads(n / 10);
    }
  }

  lemma {:induction false} NatTextShort(n: nat)
    ensures n == 0 ==> |NatText(n)| == 1
  {
  }

  /** The text of an integer is read back from its digits and sign. */
  lemma IntReads(v: int)
    ensures IntToken(IntText(v)) && IntValue(IntText(v)) == v && AllNum(IntText(v))
  {
    var n := if v < 0 then -v else v;
    NatTextLeads(n);
    NatTextShort(n);
    NatRoundTrip(n);
    hide NatText, NatValue;
    if v < 0 {
      assert IntText(v)[1..] == NatText(n);
    }
  }

  lemma IntTokenNum(t: string)
    requires IntToken(t)
    ensures AllNum(t) && t != [] && (IsDigit(t[0]) || t[0] == '-')
  {
    var digits := if t[0] == '-' then t[1..] else t;
    forall i | 0 <= i < |t| ensures NumChar(t[i]) {
      if t[0] == '-' && i > 0 {
        assert t[i] == digits[i - 1];
      }
    }
  }

  lemma ExpTokenNum(t: string)
    requires ExpToken(t)
    ensures AllNum(t)
  {
    var digits := if t[1] == '+' || t[1] == '-' then t[2..] else t[1..];
    forall i | 0 <= i < |t| ensures NumChar(t[i]) {
      if i >= 2 {
        assert t[i] == if t[1] == '+' || t[1] == '-' then digits[i - 2] else digits[i - 1];
      }
    }
  }

  /** Every whole number of 64 bits and every text of an integer, a fraction and an exponent is a number. */
  lemma NumbersValid(v: int, whole: string, fraction: string, sign: string, power: string)
    requires IntToken(whole) && AllDigits(fraction) && fraction != [] && AllDigits(power) && power != []
    requires sign == "" || sign == "+" || sign == "-"
    ensures -0x8000_0000_0000_0000 <= v <= 0xFFFF_FFFF_FFFF_FFFF ==> ValidNumber(Whole(v))
    ensures ValidNumber(Float(whole + ("." + fraction) + ""))
    ensures ValidNumber(Float(whole + "" + ("e" + sign + power)))
    ensures ValidNumber(Float(whole + "" + ("E" + sign + power)))
    ensures ValidNumber(Float(whole + ("." + fraction) + ("e" + sign + power)))
  {
    FracOf(fraction);
    ExpOf("e", sign, power);
    ExpOf("E", sign, power);
    hide FloatToken, IntToken, FracToken, ExpToken, AllDigits;
    FloatOf(whole, "." + fraction, "");
    FloatOf(whole, "", "e" + sign + power);
    FloatOf(whole, "", "E" + sign + power);
    FloatOf(whole, "." + fraction, "e" + sign + power);
  }

  lemma FracOf(fraction: string)
    requires AllDigits(fraction) && fraction != []
    ensures FracToken("." + fraction)
  {
    assert ("." + fraction)[1..] == fraction;
  }

  lemma ExpOf(e: string, sign: string, power: string)
    requires (e == "e" || e == "E") && (sign == "" || sign == "+" || sign == "-") && power != [] && AllDigits(power)
    ensures ExpToken(e + sign + power)
  {
    var t := e + sign + power;
    assert if sign == "" then t[1..] == power else t[1] == sign[0] && t[2..] == power;
  }

  lemma FloatOf(whole: string, fraction: string, exponent: string)
    requires IntToken(whole) && fraction + exponent != []
    requires (fraction == "" || FracToken(fraction)) && (exponent == "" || ExpToken(exponent))
    ensures FloatToken(whole + fraction + exponent)
  {
    hide IntToken, FracToken, ExpToken;
    var t, i, j := whole + fraction + exponent, |whole|, |whole| + |fraction|;
    assert t[..i] == whole && t[i..j] == fraction && t[j..] == exponent;
    assert FloatParts(t, i, j);
  }

  lemma FracTokenNum(t: string)
    requires FracToken(t)
    ensures AllNum(t)
  {
    forall i | 0 <= i < |t| ensures NumChar(t[i]) {
      if i > 0 {
        assert t[i] == t[1..][i - 1];
      }
    }
  }

  lemma {:induction false} AllNumJoins(s: string, t: string)
    requires AllNum(s) && AllNum(t)
    ensures AllNum(s + t)
  {
  }

  /** An integer has digits only after its sign. */
  lemma IntTokenDigits(t: string, i: nat)
    requires IntToken(t) && i < |t|
    ensures IsDigit(t[i]) || t[i] == '-'
  {
    if t[0] == '-' && i > 0 {
      assert t[1..][i - 1] == t[i];
    }
  }

  lemma FloatTokenNum(t: string)
    requires FloatToken(t)
    ensures AllNum(t) && t != [] && (IsDigit(t[0]) || t[0] == '-') && !IntToken(t)
  {
    var i: nat, j: nat :| i <= j <= |t| && FloatParts(t, i, j);
    FloatPartsNum(t, i, j);
  }

  lemma FloatPartsNum(t: string, i: nat, j: nat)
    requires FloatParts(t, i, j)
    ensures AllNum(t) && t != [] && (IsDigit(t[0]) || t[0] == '-') && !IntToken(t)
  {
    IntTokenNum(t[..i]);
    assert t[0] == t[..i][0];
    assert t[i] == if i < j then t[i..j][0] else t[j..][0];
    if IntToken(t) {
      IntTokenDigits(t, i);
      assert false;
    }
    FloatPartsJoin(t, i, j);
    hide AllNum, IntToken, FracToken, ExpToken;
  }

  lemma FloatPartsJoin(t: string, i: nat, j: nat)
    requires FloatParts(t, i, j)
    ensures AllNum(t)
  {
    hide IntToken, FracToken, ExpToken;
    IntTokenNum(t[..i]);
    if i < j {
      FracTokenNum(t[i..j]);
    }
    if j < |t| {
      ExpTokenNum(t[j..]);
    }
    AllNumJoins(t[..i], t[i..j]);
    AllNumJoins(t[..i] + t[i..j], t[j..]);
    assert t == t[..i] + t[i..j] + t[j..];
  }

  lemma NumTextNum(n: Number)
    requires ValidNumber(n)
    ensures AllNum(NumText(n)) && NumText(n) != [] && (IsDigit(NumText(n)[0]) || NumText(n)[0] == '-')
  {
    match n
    case Whole(v) =>
      IntReads(v);
      IntTokenNum(IntText(v));
    case Float(t) => FloatTokenNum(t);
  }

  lemma NumReads(n: Number, r: string)
    requires ValidNumber(n) && Stops(r)
    ensures ReadNumber(NumText(n) + r) == Some((Num(n), r))
  {
    NumTextNum(n);
    TokenEnds(NumText(n), r);
    match n
    case Whole(v) => IntReads(v);
    case Float(t) => FloatTokenNum(t);
    hide IntToken, FloatToken, NumLength, IntText;
  }

  lemma {:induction false} UnescapeOne(c: char, r: string)
    ensures Unescape(Escape(c) + r) == Prepend(c, Unescape(r))
  {
    var e := Escape(c);
    var s := e + r;
    assert s[|e|..] == r;
    if |e| == 6 {
      HexRead(c as nat);
      assert s[2] == '0' && s[3] == '0' && s[4] == HexDigit(c as nat / 16) && s[5] == HexDigit(c as nat % 16);
      assert HexUnit(s) == Some(c as nat);
    }
  }

  lemma HexRead(n: nat)
    requires n < 0x20
    ensures IsHex(HexDigit(n / 16)) && IsHex(HexDigit(n % 16))
    ensures 16 * HexValue(HexDigit(n / 16)) + HexValue(HexDigit(n % 16)) == n
  {
  }

  /** Every string is read back from its escaped form and a closing quote, whatever follows. */
  lemma {:induction false} UnescapeEscape(s: string, r: string)
    ensures Unescape(EscapeAll(s) + ("\"" + r)) == Some((s, r))
  {
    hide Escape;
    if s == [] {
      assert EscapeAll(s) + ("\"" + r) == "\"" + r && ("\"" + r)[1..] == r;
    } else {
      UnescapeEscape(s[1..], r);
      UnescapeOne(s[0], EscapeAll(s[1..]) + ("\"" + r));
      ConcatAssociates(Escape(s[0]), EscapeAll(s[1..]), "\"" + r);
      assert s == [s[0]] + s[1..];
    }
  }

  lemma {:induction false} QuoteReads(s: string, r: string)
    ensures Quote(s) + r == "\"" + (EscapeAll(s) + ("\"" + r))
    ensures (Quote(s) + r)[0] == '\"' && Unescape((Quote(s) + r)[1..]) == Some((s, r))
  {
    hide Unescape, EscapeAll;
    UnescapeEscape(s, r);
    assert (Quote(s) + r)[1..] == EscapeAll(s) + ("\"" + r);
  }

  /** The characters a value can start with. */
  predicate StartsValue(c: char) {
    c == 'n' || c == 't' || c == 'f' || c == '\"' || c == '[' || c == '{' || c == '-' || IsDigit(c)
  }

  lemma {:induction false} Heads(v: Json)
    requires Readable(v)
    ensures Print(v) != [] && StartsValue(Print(v)[0])
  {
    if v.Num? {
      NumTextNum(v.n);
    }
  }

  /** What is not a space at the start is not skipped. */
  lemma {:induction false} Unskipped(s: string)
    requires s != [] && !IsSpace(s[0])
    ensures Skip(s) == s
  {
  }

  /** A value is read back from its text when what follows cannot go on with a number. */
  lemma {:induction false} ValueReads(v: Json, r: string)
    requires Readable(v) && Stops(r)
    ensures ReadValue(Print(v) + r) == Some((v, r))
    decreases v, 2
  {
    Heads(v);
    var s := Print(v) + r;
    assert s[0] == Print(v)[0];
    Unskipped(s);
    match v
    case Null => assert s[..4] == "null" && s[4..] == r;
    case Bool(b) => BoolReads(b, r);
    case Num(n) => NumberReads(n, r);
    case Str(x) => StringReads(x, r);
    case Arr(_) => ArrReads(v, r);
    case Obj(_) => ObjReads(v, r);
  }

  lemma {:induction false} BoolReads(b: bool, r: string)
    ensures ReadValue((if b then "true" else "false") + r) == Some((Bool(b), r))
  {
    var s := (if b then "true" else "false") + r;
    Unskipped(s);
    assert s[0] != 'n';
    if b {
      assert s[..4] == "true" && s[4..] == r;
    } else {
      assert s[0] == 'f' && s[..5] == "false" && s[5..] == r;
    }
  }

  /** A first character that starts none of the three literals. */
  lemma NoLiteral(s: string)
    requires s != [] && s[0] != 'n' && s[0] != 't' && s[0] != 'f'
    ensures !HasPrefix(s, "null") && !HasPrefix(s, "true") && !HasPrefix(s, "false")
  {
    assert |s| >= 4 ==> s[..4][0] == s[0];
    assert |s| >= 5 ==> s[..5][0] == s[0];
  }

  lemma {:induction false} NumberReads(n: Number, r: string)
    requires ValidNumber(n) && Stops(r)
    ensures ReadValue(NumText(n) + r) == Some((Num(n), r))
  {
    NumTextNum(n);
    NumReads(n, r);
    hide NumText, ReadNumber, ValidNumber;
    var s := NumText(n) + r;
    assert s[0] == NumText(n)[0];
    Unskipped(s);
    NoLiteral(s);
  }

  lemma {:induction false} StringReads(x: string, r: string)
    ensures ReadValue(Quote(x) + r) == Some((Str(x), r))
  {
    QuoteReads(x, r);
    hide Quote, Unescape;
    var s := Quote(x) + r;
    Unskipped(s);
    NoLiteral(s);
  }

  lemma Inside(opening: string, s: string, closing: string, r: string)
    requires |opening| == 1
    ensures (opening + s + closing + r)[0] == opening[0] && (opening + s + closing + r)[1..] == s + (closing + r)
  {
  }

  lemma {:induction false} ArrReads(v: Json, r: string)
    requires v.Arr? && Readable(v)
    ensures ReadValue(Print(v) + r) == Some((v, r))
    decreases v, 1
  {
    var s, inner := Print(v) + r, PrintItems(v.items) + ("]" + r);
    Inside("[", PrintItems(v.items), "]", r);
    Unskipped(s);
    NoLiteral(s);
    if v.items == [] {
      assert inner == "]" + r && inner[1..] == r;
      Unskipped(inner);
    } else {
      ItemsHead(v.items, "]" + r);
      Unskipped(inner);
      ItemsRead(v.items, r);
    }
    hide PrintItems, Readable, ReadItems;
  }

  lemma {:induction false} ObjReads(v: Json, r: string)
    requires v.Obj? && Readable(v)
    ensures ReadValue(Print(v) + r) == Some((v, r))
    decreases v, 1
  {
    var s, inner := Print(v) + r, PrintMembers(v.members) + ("}" + r);
    Inside("{", PrintMembers(v.members), "}", r);
    Unskipped(s);
    NoLiteral(s);
    if v.members == [] {
      assert inner == "}" + r && inner[1..] == r;
      Unskipped(inner);
    } else {
      MembersHead(v.members, "}" + r);
      Unskipped(inner);
      MembersRead(v.members, r);
    }
    hide PrintMembers, Readable, ReadMembers;
  }

  /** What follows the first item of an array. */
  function ItemsAfter(items: seq<Json>, r: string): string
    requires items != []
  {
    if |items| == 1 then "]" + r else "," + (PrintItems(items[1..]) + ("]" + r))
  }

  lemma {:induction false} ItemsSplit(items: seq<Json>, r: string)
    requires items != []
    ensures PrintItems(items) + ("]" + r) == Print(items[0]) + ItemsAfter(items, r) && Stops(ItemsAfter(items, r))
  {
    hide Print;
  }

  lemma {:induction false} ItemsHead(items: seq<Json>, r: string)
    requires items != [] && Readable(items[0])
    ensures PrintItems(items) != [] && Print(items[0]) != []
    ensures (PrintItems(items) + r)[0] == Print(items[0])[0] && StartsValue(Print(items[0])[0])
  {
    Heads(items[0]);
    hide Print;
  }

  lemma {:induction false} ReadLastItem(s: string, v: Json, r: string)
    requires ReadValue(s) == Some((v, "]" + r))
    ensures ReadItems(s) == Some(([v], r))
  {
    hide ReadValue;
    Unskipped("]" + r);
    assert ("]" + r)[1..] == r;
  }

  lemma {:induction false} ReadItem(s: string, v: Json, rest: string)
    requires ReadValue(s) == Some((v, "," + rest)) && ReadItems(rest).Some?
    ensures ReadItems(s) == Some(([v] + ReadItems(rest).value.0, ReadItems(rest).value.1))
  {
    hide ReadValue;
    Unskipped("," + rest);
    assert ("," + rest)[1..] == rest;
  }

  lemma {:induction false} ItemsRead(items: seq<Json>, r: string)
    requires items != [] && forall i :: 0 <= i < |items| ==> Readable(items[i])
    ensures ReadItems(PrintItems(items) + ("]" + r)) == Some((items, r))
    decreases items, 0
  {
    hide PrintItems, Print, Readable, ReadValue, ReadItems, Stops;
    var s := PrintItems(items) + ("]" + r);
    ItemsSplit(items, r);
    ValueReads(items[0], ItemsAfter(items, r));
    if |items| == 1 {
      ReadLastItem(s, items[0], r);
      assert items == [items[0]];
    } else {
      ItemsRead(items[1..], r);
      ReadItem(s, items[0], PrintItems(items[1..]) + ("]" + r));
      assert items == [items[0]] + items[1..];
    }
  }

  function MembersAfter(ms: seq<Member>, r: string): string
    requires ms != []
  {
    if |ms| == 1 then "}" + r else "," + (PrintMembers(ms[1..]) + ("}" + r))
  }

  lemma {:induction false} MembersSplit(ms: seq<Member>, r: string)
    requires ms != []
    ensures PrintMembers(ms) + ("}" + r) == PrintMember(ms[0]) + MembersAfter(ms, r) && Stops(MembersAfter(ms, r))
  {
    hide PrintMember;
  }

  lemma {:induction false} MembersHead(ms: seq<Member>, r: string)
    requires ms != []
    ensures PrintMembers(ms) != [] && (PrintMembers(ms) + r)[0] == '\"'
  {
    hide Print;
  }

  lemma Regroup(k: string, v: string, tail: string)
    ensures k + ":" + v + tail == k + (":" + (v + tail))
  {
  }

  lemma {:induction false} MemberReads(m: Member, r: string)
    requires Readable(m.value) && Stops(r)
    ensures ReadMember(PrintMember(m) + r) == Some((m, r))
    decreases m, 3
  {
    var tail := Print(m.value) + r;
    Regroup(Quote(m.key), Print(m.value), r);
    QuoteReads(m.key, ":" + tail);
    Unskipped(PrintMember(m) + r);
    Unskipped(":" + tail);
    assert (":" + tail)[1..] == tail;
    ValueReads(m.value, r);
    hide Quote, Print, Readable, ReadValue, Unescape;
  }

  lemma {:induction false} ReadLastMember(s: string, m: Member, r: string)
    requires ReadMember(s) == Some((m, "}" + r))
    ensures ReadMembers(s) == Some(([m], r))
  {
    hide ReadMember;
    Unskipped("}" + r);
    assert ("}" + r)[1..] == r;
  }

  lemma {:induction false} ReadNextMember(s: string, m: Member, rest: string)
    requires ReadMember(s) == Some((m, "," + rest)) && ReadMembers(rest).Some?
    ensures ReadMembers(s) == Some(([m] + ReadMembers(rest).value.0, ReadMembers(rest).value.1))
  {
    hide ReadMember;
    Unskipped("," + rest);
    assert ("," + rest)[1..] == rest;
  }

  lemma {:induction false} MembersRead(ms: seq<Member>, r: string)
    requires ms != [] && forall i :: 0 <= i < |ms| ==> Readable(ms[i].value)
    ensures ReadMembers(PrintMembers(ms) + ("}" + r)) == Some((ms, r))
    decreases ms, 0
  {
    hide PrintMembers, PrintMember, Readable, ReadMember, ReadMembers, Stops;
    var s := PrintMembers(ms) + ("}" + r);
    MembersSplit(ms, r);
    MemberReads(ms[0], MembersAfter(ms, r));
    if |ms| == 1 {
      ReadLastMember(s, ms[0], r);
      assert ms == [ms[0]];
    } else {
      MembersRead(ms[1..], r);
      ReadNextMember(s, ms[0], PrintMembers(ms[1..]) + ("}" + r));
      assert ms == [ms[0]] + ms[1..];
    }
  }

  /** The text of a tree is read back as that tree. */
  lemma {:induction false} PrintReads(v: Json)
    requires Readable(v)
    ensures ReadText(Print(v)) == Some(v)
  {
    hide Print, Readable, ReadValue;
    assert Print(v) + [] == Print(v);
    ValueReads(v, []);
  }

  /** Different trees have different texts. */
  lemma {:induction false} PrintInjective(v: Json, w: Json)
    requires Readable(v) && Readable(w) && Print(v) == Print(w)
    ensures v == w
  {
    hide Print, Readable, ReadText;
    PrintReads(v);
    PrintReads(w);
  }

  // ---- And no shorter or looser text would do ----

  /** How the first character of a string can be written. */
  lemma {:induction false} FirstRead(s: string, c: char)
    requires Unescape(s).Some? && |Unescape(s).value.0| > 0 && Unescape(s).value.0[0] == c
    ensures s != [] && s[0] != '\"'
    ensures s[0] != '\\' ==> s[0] == c && c as int >= 0x20
    ensures s[0] == '\\' ==> |s| >= 2 && (ShortEscape(s[1]) == Some(c) || (|s| >= 6 && IsHex(s[5])))
    ensures s[0] == '\\' ==> |s| > 2
  {
  }

  lemma EscapeLength(c: char)
    ensures |Escape(c)| == 1 || |Escape(c)| == 2 || |Escape(c)| == 6
    ensures c as int >= 0x20 && c != '\"' && c != '\\' ==> |Escape(c)| == 1
  {
  }

  lemma NotShort(c: char, e: char)
    requires ShortEscape(e) == Some(c)
    ensures |Escape(c)| <= 2
  {
  }

  /** No text reads as one character in fewer characters than its escape. */
  lemma {:induction false} EscapeShortest(c: char, t: string)
    requires Unescape(t + ['\"']).Some? && Unescape(t + ['\"']).value.0 == [c]
    ensures |Escape(c)| <= |t|
  {
    hide Unescape, Escape, ShortEscape, HexValue;
    var s := t + ['\"'];
    FirstRead(s, c);
    EscapeLength(c);
    assert s[|t|] == '\"' && forall i :: 0 <= i < |t| ==> s[i] == t[i];
    if s[0] == '\\' && ShortEscape(s[1]) == Some(c) {
      NotShort(c, s[1]);
    }
  }

  /** An escape by number uses lower-case hexadecimal digits. */
  lemma EscapeLowerCase(c: char, i: nat)
    requires c as int < 0x20 && i < |Escape(c)|
    ensures !('A' <= Escape(c)[i] <= 'Z')
  {
  }

  /** No string or key of the tree holds a space. */
  predicate Spaceless(v: Json) {
    match v
    case Str(s) => ' ' !in s
    case Arr(items) => forall i :: 0 <= i < |items| ==> Spaceless(items[i])
    case Obj(ms) => forall i :: 0 <= i < |ms| ==> ' ' !in ms[i].key && Spaceless(ms[i].value)
    case _ => true
  }

  predicate Tight(s: string) {
    forall c :: c in s ==> !IsSpace(c)
  }

  lemma TightJoins(s: string, t: string)
    requires Tight(s) && Tight(t)
    ensures Tight(s + t)
  {
  }

  lemma {:induction false} EscapeTight(s: string)
    requires ' ' !in s
    ensures Tight(EscapeAll(s))
  {
    if s != [] {
      var c := s[0];
      assert c in s;
      if c as int < 0x20 {
        HexRead(c as nat);
      }
      EscapeTight(s[1..]);
      TightJoins(Escape(c), EscapeAll(s[1..]));
    }
  }

  lemma QuoteTight(s: string)
    requires ' ' !in s
    ensures Tight(Quote(s))
  {
    EscapeTight(s);
    hide EscapeAll;
    TightJoins("\"", EscapeAll(s));
    TightJoins("\"" + EscapeAll(s), "\"");
  }

  /** Outside strings, nothing is written that the reader would skip. */
  lemma {:induction false} PrintTight(v: Json)
    requires Readable(v) && Spaceless(v)
    ensures Tight(Print(v))
    decreases v, 1
  {
    match v
    case Num(n) =>
      NumTextNum(n);
      assert forall c :: c in NumText(n) ==> NumChar(c);
    case Str(s) => QuoteTight(s);
    case Arr(items) => ItemsTight(items);
    case Obj(ms) => MembersTight(ms);
    case _ =>
  }

  lemma {:induction false} ItemsTight(items: seq<Json>)
    requires forall i :: 0 <= i < |items| ==> Readable(items[i]) && Spaceless(items[i])
    ensures Tight(PrintItems(items))
    decreases items, 0
  {
    hide Print, Readable, Spaceless;
    if items != [] {
      PrintTight(items[0]);
      ItemsTight(items[1..]);
    }
  }

  lemma {:induction false} MembersTight(ms: seq<Member>)
    requires forall i :: 0 <= i < |ms| ==> Readable(ms[i].value) && ' ' !in ms[i].key && Spaceless(ms[i].value)
    ensures Tight(PrintMembers(ms))
    decreases ms, 0
  {
    hide Print, Readable, Spaceless, Quote;
    if ms != [] {
      QuoteTight(ms[0].key);
      PrintTight(ms[0].value);
      MembersTight(ms[1..]);
    }
  }
}
