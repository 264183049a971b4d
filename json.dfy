/**
 * The JSON text the chaincode stores in the ledger: `JSON.stringify` is `Encode`,
 * `JSON.parse` is `Decode`. Values are the ones JavaScript's JSON produces; an
 * object keeps its properties in insertion order, as a JavaScript object does.
 * The codec writes the compact form (no white space) and reads it back.
 */
module Json {
  import opened Wrappers

  datatype Member = Member(key: string, value: Json)

  datatype Json =
    | JNull
    | JBool(b: bool)
    | JNum(n: int)
    | JStr(s: string)
    | JArr(items: seq<Json>)
    | JObj(members: seq<Member>)

  /** What a parser has read, and the text after it. */
  datatype Parsed<T> = Parsed(value: T, rest: string)

  // ---------------------------------------------------------------------------
  // Objects as JavaScript sees them

  predicate HasKey(ms: seq<Member>, k: string) {
    exists i :: 0 <= i < |ms| && ms[i].key == k
  }

  predicate DistinctKeys(ms: seq<Member>) {
    forall i, j :: 0 <= i < j < |ms| ==> ms[i].key != ms[j].key
  }

  /** A value JavaScript can hold: no object has the same property twice. */
  predicate Wf(v: Json)
    decreases v
  {
    match v
    case JArr(items) => forall i :: 0 <= i < |items| ==> Wf(items[i])
    case JObj(ms) => DistinctKeys(ms) && forall i :: 0 <= i < |ms| ==> Wf(ms[i].value)
    case _ => true
  }

  /** The position of the first property named `k`, or `|ms|` when there is none. */
  function IndexOf(ms: seq<Member>, k: string): (i: nat)
    ensures i <= |ms|
    ensures i < |ms| <==> HasKey(ms, k)
    ensures i < |ms| ==> ms[i].key == k
    ensures forall j :: 0 <= j < i ==> ms[j].key != k
  {
    if ms == [] then 0
    else if ms[0].key == k then 0
    else
      var i := 1 + IndexOf(ms[1..], k);
      assert forall j :: 1 <= j < |ms| ==> ms[j] == ms[1..][j - 1];
      i
  }

  /** Reading property `k` of an object (`obj[k]`); None when it has no such property. */
  function Lookup(ms: seq<Member>, k: string): (r: Option<Json>)
    ensures r.Some? <==> HasKey(ms, k)
    ensures r.Some? ==> exists i :: 0 <= i < |ms| && ms[i] == Member(k, r.value)
  {
    var i := IndexOf(ms, k);
    if i < |ms| then Some(ms[i].value) else None
  }

  /**
   * Property assignment `obj[k] = v`: an existing property keeps its place and
   * takes the new value, a new one is added last.
   */
  function SetMember(ms: seq<Member>, k: string, v: Json): (r: seq<Member>)
  {
    var i := IndexOf(ms, k);
    if i < |ms| then ms[i := Member(k, v)] else ms + [Member(k, v)]
  }

  /**
   * After `obj[k] = v`, reading `k` gives `v`, reading any other name gives what it
   * gave before, and the property names keep their order, with `k` added last
   * when it is new.
   */
  lemma SetMemberEffect(ms: seq<Member>, k: string, v: Json)
    requires DistinctKeys(ms)
    ensures var r := SetMember(ms, k, v);
      && Lookup(r, k) == Some(v)
      && (forall k' :: k' != k ==> Lookup(r, k') == Lookup(ms, k'))
      && (HasKey(ms, k) ==> |r| == |ms|)
      && (!HasKey(ms, k) ==> |r| == |ms| + 1 && r[|ms|].key == k)
      && (forall j :: 0 <= j < |ms| ==> r[j].key == ms[j].key)
  {
    var r := SetMember(ms, k, v);
    var i := IndexOf(ms, k);
    assert r[i] == Member(k, v);
    assert forall j :: 0 <= j < |ms| ==> r[j].key == ms[j].key;
    assert forall j :: 0 <= j < |ms| && j != i ==> r[j] == ms[j];
    assert HasKey(r, k);
    assert IndexOf(r, k) == i;
    forall k' | k' != k ensures Lookup(r, k') == Lookup(ms, k') {
      var i' := IndexOf(ms, k');
      if i' < |ms| {
        assert IndexOf(r, k') == i';
      } else {
        assert !HasKey(r, k');
      }
    }
  }

  /** Assignment keeps an object well formed. */
  lemma SetMemberWf(ms: seq<Member>, k: string, v: Json)
    requires DistinctKeys(ms) && forall i :: 0 <= i < |ms| ==> Wf(ms[i].value)
    requires Wf(v)
    ensures var r := SetMember(ms, k, v);
      DistinctKeys(r) && forall i :: 0 <= i < |r| ==> Wf(r[i].value)
  {
    var r := SetMember(ms, k, v);
    var i := IndexOf(ms, k);
    if i == |ms| {
      assert forall j :: 0 <= j < |ms| ==> r[j] == ms[j];
    }
  }

  // ---------------------------------------------------------------------------
  // Encoding (JSON.stringify)

  predicate IsDigit(c: char) {
    '0' <= c <= '9'
  }

  function DigitChar(d: nat): (c: char)
    requires d < 10
    ensures IsDigit(c)
  {
    ('0' as int + d) as char
  }

  function DigitVal(c: char): nat
    requires IsDigit(c)
  {
    c as int - '0' as int
  }

  /** The decimal numeral of `n`, without leading zeros. */
  function NatDigits(n: nat): (d: string)
    ensures |d| > 0 && forall i :: 0 <= i < |d| ==> IsDigit(d[i])
  {
    if n < 10 then [DigitChar(n)] else NatDigits(n / 10) + [DigitChar(n % 10)]
  }

  /** The body of a JSON string literal, as JSON.stringify writes it. */
  function Escape(s: string): string {
    if s == [] then [] else EscapeChar(s[0]) + Escape(s[1..])
  }

  /** A character below U+0020, which a string literal may not hold unescaped. */
  predicate IsControl(c: char) {
    c as int < 0x20
  }

  /** The letter of the two-character escape JSON.stringify uses for `c`, if it has one. */
  function ShortEscapeLetter(c: char): Option<char> {
    if c == '"' then Some('"')
    else if c == '\\' then Some('\\')
    else if c as int == 0x08 then Some('b')
    else if c == '\t' then Some('t')
    else if c == '\n' then Some('n')
    else if c as int == 0x0C then Some('f')
    else if c == '\r' then Some('r')
    else None
  }

  function HexDigit(d: nat): (c: char)
    requires d < 16
  {
    if d < 10 then ('0' as int + d) as char else ('a' as int + d - 10) as char
  }

  /**
   * One character of a string body: a two-character escape where there is
   * one, `\u00XX` for the other control characters, else the character itself.
   */
  function EscapeChar(c: char): string {
    match ShortEscapeLetter(c)
    case Some(x) => ['\\', x]
    case None =>
      if IsControl(c) then ['\\', 'u', '0', '0', HexDigit(c as int / 16), HexDigit(c as int % 16)]
      else [c]
  }

  function Quote(s: string): string {
    "\"" + Escape(s) + "\""
  }

  function Encode(v: Json): string
    decreases v
  {
    match v
    case JNull => "null"
    case JBool(b) => if b then "true" else "false"
    case JNum(n) => if n < 0 then "-" + NatDigits(-n) else NatDigits(n)
    case JStr(s) => Quote(s)
    case JArr(items) => "[" + EncodeElems(items) + "]"
    case JObj(ms) => "{" + EncodeMembers(ms) + "}"
  }

  function EncodeElems(items: seq<Json>): string
    decreases items
  {
    if items == [] then ""
    else if |items| == 1 then Encode(items[0])
    else Encode(items[0]) + "," + EncodeElems(items[1..])
  }

  function EncodeMember(m: Member): string
    decreases m
  {
    Quote(m.key) + ":" + Encode(m.value)
  }

  function EncodeMembers(ms: seq<Member>): string
    decreases ms
  {
    if ms == [] then ""
    else if |ms| == 1 then EncodeMember(ms[0])
    else EncodeMember(ms[0]) + "," + EncodeMembers(ms[1..])
  }

  // ---------------------------------------------------------------------------
  // Decoding (JSON.parse)

  /** The number of digits `s` starts with. */
  function LeadingDigits(s: string): (n: nat)
    ensures n <= |s|
    ensures forall i :: 0 <= i < n ==> IsDigit(s[i])
    ensures n < |s| ==> !IsDigit(s[n])
  {
    if s == [] || !IsDigit(s[0]) then 0 else 1 + LeadingDigits(s[1..])
  }

  function DigitsValue(d: string): nat
    requires forall i :: 0 <= i < |d| ==> IsDigit(d[i])
  {
    if d == [] then 0 else DigitsValue(d[..|d| - 1]) * 10 + DigitVal(d[|d| - 1])
  }

  /** An integer literal, with an optional leading minus sign. */
  function ParseNumber(s: string): (r: Option<Parsed<Json>>)
    ensures r.Some? ==> |r.value.rest| < |s|
  {
    var neg := |s| > 0 && s[0] == '-';
    var body := if neg then s[1..] else s;
    var n := LeadingDigits(body);
    if n == 0 || (n > 1 && body[0] == '0') then None
    else
      var m: int := DigitsValue(body[..n]);
      Some(Parsed(JNum(if neg then -m else m), body[n..]))
  }

  /** One of the words `null`, `true` and `false`. */
  function ParseWord(s: string, word: string, v: Json): (r: Option<Parsed<Json>>)
    requires |word| > 0
    ensures r.Some? ==> |r.value.rest| < |s|
  {
    if |word| <= |s| && s[..|word|] == word then Some(Parsed(v, s[|word|..])) else None
  }

  /** The character a two-character escape `\x` stands for, if `x` is one JSON.parse accepts. */
  function ShortEscaped(x: char): Option<char> {
    if x == '"' || x == '\\' || x == '/' then Some(x)
    else if x == 'b' then Some(0x08 as char)
    else if x == 't' then Some('\t')
    else if x == 'n' then Some('\n')
    else if x == 'f' then Some(0x0C as char)
    else if x == 'r' then Some('\r')
    else None
  }

  function HexVal(c: char): (r: Option<nat>)
    ensures r.Some? ==> r.value < 16
  {
    if '0' <= c <= '9' then Some(c as int - '0' as int)
    else if 'a' <= c <= 'f' then Some(c as int - 'a' as int + 10)
    else if 'A' <= c <= 'F' then Some(c as int - 'A' as int + 10)
    else None
  }

  /** The value of four hexadecimal digits. */
  function Hex4(s: string): (r: Option<nat>)
    requires |s| == 4
    ensures r.Some? ==> r.value < 0x10000
  {
    match (HexVal(s[0]), HexVal(s[1]), HexVal(s[2]), HexVal(s[3]))
    case (Some(a), Some(b), Some(c), Some(d)) =>
      assert a * 16 + b < 256;
      assert (a * 16 + b) * 16 + c < 4096;
      Some(((a * 16 + b) * 16 + c) * 16 + d)
    case _ => None
  }

  /**
   * An escape, from the character after its backslash. A `\u` escape of a
   * surrogate code unit is refused: a `char` holds no half of a pair.
   */
  function ParseEscape(s: string): (r: Option<Parsed<char>>)
    ensures r.Some? ==> |r.value.rest| < |s|
  {
    if s == [] then None
    else if s[0] == 'u' then
      if |s| < 5 then None
      else
        match Hex4(s[1..5])
        case None => None
        case Some(v) => if 0xD800 <= v < 0xE000 then None else Some(Parsed(v as char, s[5..]))
    else
      match ShortEscaped(s[0])
      case None => None
      case Some(c) => Some(Parsed(c, s[1..]))
  }

  /**
   * The body of a string literal up to its closing quote, which is consumed.
   * A raw control character is a syntax error.
   */
  function ParseStringBody(s: string): (r: Option<Parsed<string>>)
    ensures r.Some? ==> |r.value.rest| < |s|
  {
    if s == [] then None
    else if s[0] == '"' then Some(Parsed([], s[1..]))
    else if s[0] == '\\' then
      match ParseEscape(s[1..])
      case None => None
      case Some(e) =>
        match ParseStringBody(e.rest)
        case None => None
        case Some(p) => Some(Parsed([e.value] + p.value, p.rest))
    else if IsControl(s[0]) then None
    else
      match ParseStringBody(s[1..])
      case None => None
      case Some(p) => Some(Parsed([s[0]] + p.value, p.rest))
  }

  /** A string literal, from its opening quote `s[0]`. */
  function ParseString(s: string): (r: Option<Parsed<Json>>)
    requires s != []
    ensures r.Some? ==> |r.value.rest| < |s|
  {
    match ParseStringBody(s[1..])
    case None => None
    case Some(p) => Some(Parsed(JStr(p.value), p.rest))
  }

  function ParseValue(s: string): (r: Option<Parsed<Json>>)
    decreases |s|, 1
    ensures r.Some? ==> |r.value.rest| < |s| && Wf(r.value.value)
  {
    if s == [] then None
    else if s[0] == 'n' then ParseWord(s, "null", JNull)
    else if s[0] == 't' then ParseWord(s, "true", JBool(true))
    else if s[0] == 'f' then ParseWord(s, "false", JBool(false))
    else if s[0] == '"' then ParseString(s)
    else if s[0] == '[' then ParseArray(s)
    else if s[0] == '{' then ParseObject(s)
    else ParseNumber(s)
  }

  /** An array, from its `[` at `s[0]`. */
  function ParseArray(s: string): (r: Option<Parsed<Json>>)
    requires s != []
    decreases |s|, 0
    ensures r.Some? ==> |r.value.rest| < |s| && Wf(r.value.value)
  {
    if |s| >= 2 && s[1] == ']' then Some(Parsed(JArr([]), s[2..])) else ParseElems(s[1..], [])
  }

  /** An object, from its `{` at `s[0]`. */
  function ParseObject(s: string): (r: Option<Parsed<Json>>)
    requires s != []
    decreases |s|, 0
    ensures r.Some? ==> |r.value.rest| < |s| && Wf(r.value.value)
  {
    if |s| >= 2 && s[1] == '}' then Some(Parsed(JObj([]), s[2..])) else ParseMembers(s[1..], [])
  }

  /** The elements of a non-empty array after its `[`, through its `]`; `acc` holds those read so far. */
  function ParseElems(s: string, acc: seq<Json>): (r: Option<Parsed<Json>>)
    requires forall i :: 0 <= i < |acc| ==> Wf(acc[i])
    decreases |s|, 2
    ensures r.Some? ==> |r.value.rest| < |s| && Wf(r.value.value)
  {
    match ParseValue(s)
    case None => None
    case Some(p) =>
      if p.rest == [] then None
      else if p.rest[0] == ',' then ParseElems(p.rest[1..], acc + [p.value])
      else if p.rest[0] == ']' then Some(Parsed(JArr(acc + [p.value]), p.rest[1..]))
      else None
  }

  /**
   * The members of a non-empty object after its `{`, through its `}`; `acc` holds
   * those read so far. A repeated name is an assignment: the last value wins.
   */
  function ParseMembers(s: string, acc: seq<Member>): (r: Option<Parsed<Json>>)
    requires DistinctKeys(acc) && forall i :: 0 <= i < |acc| ==> Wf(acc[i].value)
    decreases |s|, 2
    ensures r.Some? ==> |r.value.rest| < |s| && Wf(r.value.value)
  {
    if s == [] || s[0] != '"' then None
    else
      match ParseStringBody(s[1..])
      case None => None
      case Some(k) =>
        if k.rest == [] || k.rest[0] != ':' then None
        else
          match ParseValue(k.rest[1..])
          case None => None
          case Some(p) =>
            SetMemberWf(acc, k.value, p.value);
            var acc' := SetMember(acc, k.value, p.value);
            if p.rest == [] then None
            else if p.rest[0] == ',' then ParseMembers(p.rest[1..], acc')
            else if p.rest[0] == '}' then Some(Parsed(JObj(acc'), p.rest[1..]))
            else None
  }

  /** JSON.parse: one value and nothing after it; None where JSON.parse throws. */
  function Decode(text: string): (r: Option<Json>)
    ensures r.Some? ==> Wf(r.value)
  {
    match ParseValue(text)
    case None => None
    case Some(p) => if p.rest == [] then Some(p.value) else None
  }

  // ---------------------------------------------------------------------------
  // Round trip: JSON.parse(JSON.stringify(v)) is v

  /** Text that cannot continue a number literal. */
  predicate Delimits(rest: string) {
    rest == [] || !IsDigit(rest[0])
  }

  lemma {:induction false} DigitsValueOfNatDigits(n: nat)
    ensures DigitsValue(NatDigits(n)) == n
  {
    var d := NatDigits(n);
    if n >= 10 {
      DigitsValueOfNatDigits(n / 10);
      assert d[..|d| - 1] == NatDigits(n / 10);
    }
  }

  lemma {:induction false} LeadingDigitsOfPrefix(d: string, rest: string)
    requires forall i :: 0 <= i < |d| ==> IsDigit(d[i])
    requires Delimits(rest)
    ensures LeadingDigits(d + rest) == |d|
  {
    if d != [] {
      LeadingDigitsOfPrefix(d[1..], rest);
      assert (d + rest)[1..] == d[1..] + rest;
    }
  }

  /** A numeral followed by a non-digit: its digits are read, valued, and the rest is left. */
  lemma DigitsRoundTrip(m: nat, rest: string)
    requires Delimits(rest)
    ensures var d := NatDigits(m);
      && LeadingDigits(d + rest) == |d|
      && DigitsValue((d + rest)[..|d|]) == m
      && (d + rest)[|d|..] == rest
      && (|d| > 1 ==> (d + rest)[0] != '0')
  {
    var d := NatDigits(m);
    NatDigitsLead(m);
    LeadingDigitsOfPrefix(d, rest);
    DigitsValueOfNatDigits(m);
    assert (d + rest)[..|d|] == d;
  }

  /** A numeral of more than one digit does not start with `0`. */
  lemma {:induction false} NatDigitsLead(m: nat)
    ensures |NatDigits(m)| > 1 ==> NatDigits(m)[0] != '0'
  {
    if m >= 10 {
      NatDigitsLead(m / 10);
    }
  }

  /** JSON.parse refuses a number with a leading zero, such as `01`. */
  lemma LeadingZeroRejected(s: string)
    requires |s| >= 2 && s[0] == '0' && IsDigit(s[1])
    ensures ParseNumber(s) == None
    ensures Decode(s) == None
  {
    assert LeadingDigits(s) > 1;
  }

  lemma NumberRoundTrip(n: int, rest: string)
    requires Delimits(rest)
    ensures ParseNumber(Encode(JNum(n)) + rest) == Some(Parsed(JNum(n), rest))
  {
    var m: nat := if n < 0 then -n else n;
    var d := NatDigits(m);
    DigitsRoundTrip(m, rest);
    if n < 0 {
      assert (Encode(JNum(n)) + rest)[1..] == d + rest;
    } else {
      assert IsDigit(d[0]);
      assert Encode(JNum(n)) + rest == d + rest;
    }
  }

  /** JSON.parse refuses a string literal holding a raw control character: none is ever consumed. */
  lemma {:induction false} NoRawControlConsumed(s: string)
    ensures ParseStringBody(s).Some? ==>
      forall i :: 0 <= i < |s| - |ParseStringBody(s).value.rest| ==> !IsControl(s[i])
  {
    if ParseStringBody(s).Some? && s[0] != '"' {
      if s[0] == '\\' {
        var e := ParseEscape(s[1..]).value;
        NoRawControlConsumed(e.rest);
        var k := |s| - |e.rest|;
        assert e.rest == s[k..];
        if s[1] == 'u' {
          assert s[1..][1..5] == s[2..6];
          assert forall i :: 2 <= i < 6 ==> HexVal(s[i]).Some?;
        }
        forall i | 0 <= i < |s| - |ParseStringBody(s).value.rest|
          ensures !IsControl(s[i])
        {
          if i >= k {
            assert s[i] == e.rest[i - k];
          }
        }
      } else {
        NoRawControlConsumed(s[1..]);
        forall i | 1 <= i < |s| - |ParseStringBody(s).value.rest|
          ensures !IsControl(s[i])
        {
          assert s[i] == s[1..][i - 1];
        }
      }
    }
  }


  /** One character of a string body, escaped as needed, then more text. */
  lemma EscapedCharParse(c: char, tail: string)
    ensures ParseStringBody(EscapeChar(c) + tail) ==
      match ParseStringBody(tail)
      case None => None
      case Some(p) => Some(Parsed([c] + p.value, p.rest))
  {
    match ShortEscapeLetter(c)
    case Some(x) => ShortEscapeParse(c, x, tail);
    case None =>
      if IsControl(c) {
        UnicodeEscapeParse(c, tail);
      } else {
        assert (EscapeChar(c) + tail)[1..] == tail;
      }
  }

  lemma ShortEscapeParse(c: char, x: char, tail: string)
    requires ShortEscapeLetter(c) == Some(x)
    ensures ParseStringBody(['\\', x] + tail) ==
      match ParseStringBody(tail)
      case None => None
      case Some(p) => Some(Parsed([c] + p.value, p.rest))
  {
    var s := ['\\', x] + tail;
    assert s[1..] == [x] + tail;
    assert ([x] + tail)[1..] == tail;
    assert ParseEscape(s[1..]) == Some(Parsed(c, tail));
  }

  lemma HexDigitVal(d: nat)
    requires d < 16
    ensures HexVal(HexDigit(d)) == Some(d)
  {
  }

  lemma UnicodeEscapeParse(c: char, tail: string)
    requires IsControl(c) && ShortEscapeLetter(c).None?
    ensures ParseStringBody(EscapeChar(c) + tail) ==
      match ParseStringBody(tail)
      case None => None
      case Some(p) => Some(Parsed([c] + p.value, p.rest))
  {
    var hi := c as int / 16;
    var lo := c as int % 16;
    var e := ['\\', 'u', '0', '0', HexDigit(hi), HexDigit(lo)];
    var s := e + tail;
    HexDigitVal(0);
    HexDigitVal(hi);
    HexDigitVal(lo);
    assert s[1..][1..5] == ['0', '0', HexDigit(hi), HexDigit(lo)];
    assert Hex4(s[1..][1..5]) == Some(c as int);
    assert s[1..][5..] == tail;
    assert ParseEscape(s[1..]) == Some(Parsed(c, tail));
  }

  lemma Regroup(a: string, b: string, c: string, d: string)
    ensures (a + b) + c + d == a + (b + c + d)
  {
  }

  lemma {:induction false} StringRoundTrip(t: string, rest: string)
    ensures ParseStringBody(Escape(t) + "\"" + rest) == Some(Parsed(t, rest))
  {
    if t == [] {
      assert Escape(t) + "\"" + rest == ['"'] + rest;
    } else {
      StringRoundTrip(t[1..], rest);
      var tail := Escape(t[1..]) + "\"" + rest;
      EscapedCharParse(t[0], tail);
      Regroup(EscapeChar(t[0]), Escape(t[1..]), "\"", rest);
      assert [t[0]] + t[1..] == t;
    }
  }

  /** An encoded value never starts with a closing bracket. */
  lemma EncodeStart(v: Json)
    ensures |Encode(v)| > 0 && Encode(v)[0] != ']' && Encode(v)[0] != '}'
  {
    match v
    case JNum(n) =>
      if n >= 0 { assert IsDigit(NatDigits(n)[0]); }
    case _ =>
  }

  lemma WordRoundTrip(word: string, v: Json, rest: string)
    requires |word| > 0
    ensures ParseWord(word + rest, word, v) == Some(Parsed(v, rest))
  {
    assert (word + rest)[..|word|] == word;
    assert (word + rest)[|word|..] == rest;
  }

  lemma NullRoundTrip(rest: string)
    ensures ParseValue(Encode(JNull) + rest) == Some(Parsed(JNull, rest))
  {
    WordRoundTrip("null", JNull, rest);
  }

  lemma BoolRoundTrip(b: bool, rest: string)
    ensures ParseValue(Encode(JBool(b)) + rest) == Some(Parsed(JBool(b), rest))
  {
    if b { WordRoundTrip("true", JBool(b), rest); } else { WordRoundTrip("false", JBool(b), rest); }
  }

  lemma NumRoundTrip(n: int, rest: string)
    requires Delimits(rest)
    ensures ParseValue(Encode(JNum(n)) + rest) == Some(Parsed(JNum(n), rest))
  {
    var s := Encode(JNum(n)) + rest;
    NumberRoundTrip(n, rest);
    if n >= 0 { assert IsDigit(NatDigits(n)[0]); }
    assert s[0] == '-' || IsDigit(s[0]);
  }

  lemma StrRoundTrip(t: string, rest: string)
    ensures ParseValue(Encode(JStr(t)) + rest) == Some(Parsed(JStr(t), rest))
  {
    var s := Encode(JStr(t)) + rest;
    StringRoundTrip(t, rest);
    assert s == "\"" + (Escape(t) + "\"" + rest);
    assert s[1..] == Escape(t) + "\"" + rest;
  }

  lemma {:induction false} ValueRoundTrip(v: Json, rest: string)
    requires Wf(v) && Delimits(rest)
    ensures ParseValue(Encode(v) + rest) == Some(Parsed(v, rest))
    decreases v, 1
  {
    match v
    case JArr(items) => ArrayRoundTrip(items, rest);
    case JObj(ms) => ObjectRoundTrip(ms, rest);
    case JNull => NullRoundTrip(rest);
    case JBool(b) => BoolRoundTrip(b, rest);
    case JNum(n) => NumRoundTrip(n, rest);
    case JStr(t) => StrRoundTrip(t, rest);
  }

  lemma {:induction false} ArrayRoundTrip(items: seq<Json>, rest: string)
    requires forall i :: 0 <= i < |items| ==> Wf(items[i])
    ensures ParseValue(Encode(JArr(items)) + rest) == Some(Parsed(JArr(items), rest))
    decreases items, 2
  {
    var s := Encode(JArr(items)) + rest;
    Enclosed("[", EncodeElems(items), "]", rest);
    ParseValueDispatch(s);
    if items == [] {
      assert s[2..] == rest;
    } else {
      EncodeStart(items[0]);
      ElemsRoundTrip(items, [], rest);
      assert [] + items == items;
    }
  }

  lemma {:induction false} ObjectRoundTrip(ms: seq<Member>, rest: string)
    requires DistinctKeys(ms) && forall i :: 0 <= i < |ms| ==> Wf(ms[i].value)
    ensures ParseValue(Encode(JObj(ms)) + rest) == Some(Parsed(JObj(ms), rest))
    decreases ms, 2
  {
    var s := Encode(JObj(ms)) + rest;
    Enclosed("{", EncodeMembers(ms), "}", rest);
    ParseValueDispatch(s);
    if ms == [] {
      assert s[2..] == rest;
    } else {
      assert EncodeMembers(ms)[0] == '"';
      MembersRoundTrip(ms, [], rest);
      assert [] + ms == ms;
    }
  }

  /** A value opening with a bracket is read by the array or the object reader. */
  lemma ParseValueDispatch(s: string)
    requires s != []
    ensures s[0] == '[' ==> ParseValue(s) == ParseArray(s)
    ensures s[0] == '{' ==> ParseValue(s) == ParseObject(s)
  {
  }

  /** One element of an array: the parser reads a value, then a `,` or a `]`. */
  lemma ElemsStep(s: string, acc: seq<Json>, v: Json, after: string)
    requires forall i :: 0 <= i < |acc| ==> Wf(acc[i])
    requires ParseValue(s) == Some(Parsed(v, after)) && after != []
    ensures after[0] == ',' ==> ParseElems(s, acc) == ParseElems(after[1..], acc + [v])
    ensures after[0] == ']' ==> ParseElems(s, acc) == Some(Parsed(JArr(acc + [v]), after[1..]))
  {
  }

  /** `open body close rest`, regrouped so that the text after `open` is one piece. */
  lemma Enclosed(open: string, body: string, close: string, rest: string)
    requires |open| == 1
    ensures open + body + close + rest == open + (body + close + rest)
    ensures (open + (body + close + rest))[1..] == body + close + rest
  {
  }

  /** `a , b close rest`, regrouped so that the text after `a` is one piece. */
  lemma JoinShift(a: string, b: string, close: string, rest: string)
    ensures a + "," + b + close + rest == a + ("," + (b + close + rest))
    ensures ("," + (b + close + rest))[1..] == b + close + rest
  {
  }

  lemma SplitFirst<T>(a: seq<T>, b: seq<T>)
    requires b != []
    ensures (a + [b[0]]) + b[1..] == a + b
  {
    assert b == [b[0]] + b[1..];
  }

  /** An encoded value followed by a `,` or a `]` is one element of an array. */
  lemma {:induction false} ElemsStepEncoded(v: Json, acc: seq<Json>, after: string)
    requires Wf(v) && forall i :: 0 <= i < |acc| ==> Wf(acc[i])
    requires after != [] && (after[0] == ',' || after[0] == ']')
    ensures after[0] == ',' ==> ParseElems(Encode(v) + after, acc) == ParseElems(after[1..], acc + [v])
    ensures after[0] == ']' ==> ParseElems(Encode(v) + after, acc) == Some(Parsed(JArr(acc + [v]), after[1..]))
    decreases v, 2
  {
    ValueRoundTrip(v, after);
    ElemsStep(Encode(v) + after, acc, v, after);
  }

  /** The last element closes the array. */
  lemma {:induction false} ElemsLast(v: Json, acc: seq<Json>, rest: string)
    requires Wf(v) && forall i :: 0 <= i < |acc| ==> Wf(acc[i])
    ensures ParseElems(EncodeElems([v]) + "]" + rest, acc) == Some(Parsed(JArr(acc + [v]), rest))
    decreases v, 3
  {
    var after := "]" + rest;
    assert EncodeElems([v]) + "]" + rest == Encode(v) + after;
    ElemsStepEncoded(v, acc, after);
    assert after[1..] == rest;
  }

  /** An element followed by more elements. */
  lemma {:induction false} ElemsNext(items: seq<Json>, acc: seq<Json>, rest: string)
    requires |items| > 1
    requires Wf(items[0]) && forall i :: 0 <= i < |acc| ==> Wf(acc[i])
    ensures ParseElems(EncodeElems(items) + "]" + rest, acc)
      == ParseElems(EncodeElems(items[1..]) + "]" + rest, acc + [items[0]])
    decreases items, 0
  {
    var after := "," + (EncodeElems(items[1..]) + "]" + rest);
    JoinShift(Encode(items[0]), EncodeElems(items[1..]), "]", rest);
    ElemsStepEncoded(items[0], acc, after);
  }

  lemma {:induction false} ElemsRoundTrip(items: seq<Json>, acc: seq<Json>, rest: string)
    requires items != []
    requires forall i :: 0 <= i < |items| ==> Wf(items[i])
    requires forall i :: 0 <= i < |acc| ==> Wf(acc[i])
    ensures ParseElems(EncodeElems(items) + "]" + rest, acc) == Some(Parsed(JArr(acc + items), rest))
    decreases items, 1
  {
    if |items| == 1 {
      ElemsLast(items[0], acc, rest);
      assert items == [items[0]];
    } else {
      ElemsNext(items, acc, rest);
      ElemsRoundTrip(items[1..], acc + [items[0]], rest);
      SplitFirst(acc, items);
    }
  }

  /** A name that is new to `acc` is appended by the parser's assignment. */
  lemma NewMemberAppends(acc: seq<Member>, ms: seq<Member>)
    requires ms != [] && DistinctKeys(acc + ms)
    ensures DistinctKeys(acc)
    ensures SetMember(acc, ms[0].key, ms[0].value) == acc + [ms[0]]
    ensures DistinctKeys((acc + [ms[0]]) + ms[1..])
  {
    var m := ms[0];
    assert forall i :: 0 <= i < |acc| ==> (acc + ms)[i] == acc[i];
    assert (acc + ms)[|acc|] == m;
    assert !HasKey(acc, m.key);
    assert (acc + [m]) + ms[1..] == acc + ms;
  }

  /** The name of an encoded member reads back, leaving its colon and value. */
  lemma MemberNameRoundTrip(m: Member, after: string)
    ensures var s := EncodeMember(m) + after;
      && s[0] == '"'
      && ParseStringBody(s[1..]) == Some(Parsed(m.key, ":" + Encode(m.value) + after))
    ensures (":" + Encode(m.value) + after)[1..] == Encode(m.value) + after
  {
    var value := Encode(m.value) + after;
    var s := EncodeMember(m) + after;
    assert s == "\"" + (Escape(m.key) + "\"" + (":" + value));
    StringRoundTrip(m.key, ":" + value);
    assert s[1..] == Escape(m.key) + "\"" + (":" + value);
    assert ":" + Encode(m.value) + after == ":" + value;
  }

  /** One member of an object: name, `:`, value, then a `,` or a `}`. */
  lemma MembersStep(s: string, acc: seq<Member>, m: Member, after: string)
    requires DistinctKeys(acc) && forall i :: 0 <= i < |acc| ==> Wf(acc[i].value)
    requires s != [] && s[0] == '"'
    requires ParseStringBody(s[1..]) == Some(Parsed(m.key, ":" + Encode(m.value) + after))
    requires ParseValue((":" + Encode(m.value) + after)[1..]) == Some(Parsed(m.value, after))
    requires after != [] && Wf(m.value)
    ensures var r := SetMember(acc, m.key, m.value);
      DistinctKeys(r) && forall i :: 0 <= i < |r| ==> Wf(r[i].value)
    ensures after[0] == ',' ==> ParseMembers(s, acc) == ParseMembers(after[1..], SetMember(acc, m.key, m.value))
    ensures after[0] == '}' ==> ParseMembers(s, acc) == Some(Parsed(JObj(SetMember(acc, m.key, m.value)), after[1..]))
  {
    SetMemberWf(acc, m.key, m.value);
  }

  /** An encoded member followed by a `,` or a `}` is one member of an object. */
  lemma {:induction false} MembersStepEncoded(m: Member, acc: seq<Member>, after: string)
    requires Wf(m.value) && DistinctKeys(acc) && forall i :: 0 <= i < |acc| ==> Wf(acc[i].value)
    requires after != [] && (after[0] == ',' || after[0] == '}')
    ensures var r := SetMember(acc, m.key, m.value);
      DistinctKeys(r) && forall i :: 0 <= i < |r| ==> Wf(r[i].value)
    ensures after[0] == ',' ==>
      ParseMembers(EncodeMember(m) + after, acc) == ParseMembers(after[1..], SetMember(acc, m.key, m.value))
    ensures after[0] == '}' ==>
      ParseMembers(EncodeMember(m) + after, acc) == Some(Parsed(JObj(SetMember(acc, m.key, m.value)), after[1..]))
    decreases m, 2
  {
    MemberNameRoundTrip(m, after);
    ValueRoundTrip(m.value, after);
    MembersStep(EncodeMember(m) + after, acc, m, after);
  }

  /** The last member closes the object. */
  lemma {:induction false} MembersLast(ms: seq<Member>, acc: seq<Member>, rest: string)
    requires |ms| == 1 && DistinctKeys(acc + ms)
    requires Wf(ms[0].value) && forall i :: 0 <= i < |acc| ==> Wf(acc[i].value)
    ensures DistinctKeys(acc)
    ensures ParseMembers(EncodeMembers(ms) + "}" + rest, acc) == Some(Parsed(JObj(acc + ms), rest))
    decreases ms, 0
  {
    var after := "}" + rest;
    NewMemberAppends(acc, ms);
    assert EncodeMembers(ms) + "}" + rest == EncodeMember(ms[0]) + after;
    MembersStepEncoded(ms[0], acc, after);
    assert after[1..] == rest;
    assert ms == [ms[0]];
  }

  /** A member followed by more members. */
  lemma {:induction false} MembersNext(ms: seq<Member>, acc: seq<Member>, rest: string)
    requires |ms| > 1 && DistinctKeys(acc + ms)
    requires Wf(ms[0].value) && forall i :: 0 <= i < |acc| ==> Wf(acc[i].value)
    ensures DistinctKeys(acc) && DistinctKeys(acc + [ms[0]])
    ensures forall i :: 0 <= i < |acc + [ms[0]]| ==> Wf((acc + [ms[0]])[i].value)
    ensures ParseMembers(EncodeMembers(ms) + "}" + rest, acc)
      == ParseMembers(EncodeMembers(ms[1..]) + "}" + rest, acc + [ms[0]])
    decreases ms, 0
  {
    var after := "," + (EncodeMembers(ms[1..]) + "}" + rest);
    NewMemberAppends(acc, ms);
    JoinShift(EncodeMember(ms[0]), EncodeMembers(ms[1..]), "}", rest);
    MembersStepEncoded(ms[0], acc, after);
  }

  lemma {:induction false} MembersRoundTrip(ms: seq<Member>, acc: seq<Member>, rest: string)
    requires ms != []
    requires DistinctKeys(acc + ms)
    requires forall i :: 0 <= i < |ms| ==> Wf(ms[i].value)
    requires forall i :: 0 <= i < |acc| ==> Wf(acc[i].value)
    ensures DistinctKeys(acc)
    ensures ParseMembers(EncodeMembers(ms) + "}" + rest, acc) == Some(Parsed(JObj(acc + ms), rest))
    decreases ms, 1
  {
    if |ms| == 1 {
      MembersLast(ms, acc, rest);
    } else {
      MembersNext(ms, acc, rest);
      var acc' := acc + [ms[0]];
      SplitFirst(acc, ms);
      MembersRoundTrip(ms[1..], acc', rest);
    }
  }

  /** JSON.parse(JSON.stringify(v)) gives back v, for every value JavaScript can hold. */
  lemma DecodeEncode(v: Json)
    requires Wf(v)
    ensures Decode(Encode(v)) == Some(v)
  {
    ValueRoundTrip(v, []);
    assert Encode(v) + [] == Encode(v);
  }
}
