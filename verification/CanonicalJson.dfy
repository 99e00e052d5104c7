/** Compact JSON text with sorted object keys, character by character, and what two payloads with
    the same text have in common. */
module CanonicalJson {
  import opened Common

  /** A decoded payload. An object keeps its members in the order they came in; a number is the
      numeral it is written as. */
  datatype Json =
    | Null
    | Boolean(value: bool)
    | Number(numeral: string)
    | Text(text: string)
    | Array(items: Items)
    | Object(members: Members)

  datatype Items = End | Item(head: Json, tail: Items)

  datatype Members = Empty | Member(key: string, value: Json, rest: Members)

  // ----- Strings -----

  function HexDigit(d: nat): char
    requires d < 16
  {
    if d < 10 then '0' + d as char else 'a' + (d - 10) as char
  }

  /** The last `n` hexadecimal digits. */
  function Hex(u: nat, n: nat): (h: string)
    ensures |h| == n
    decreases n
  {
    if n == 0 then "" else Hex(u / 16, n - 1) + [HexDigit(u % 16)]
  }

  /** A UTF-16 code unit. */
  function UnitHex(u: nat): (h: string)
    ensures |h| == 4
  {
    Hex(u, 4)
  }

  predicate Printable(c: char) {
    ' ' <= c <= '~'
  }

  function ShortEscape(c: char): Option<char> {
    if c == '"' then Some('"')
    else if c == '\\' then Some('\\')
    else if c == '\n' then Some('n')
    else if c == '\r' then Some('r')
    else if c == '\t' then Some('t')
    else if c == '\U{0008}' then Some('b')
    else if c == '\U{000C}' then Some('f')
    else None
  }

  function HighUnit(c: char): (u: nat)
    requires c as int >= 0x10000
    ensures 0xD800 <= u < 0xDC00
  {
    0xD800 + (c as int - 0x10000) / 0x400
  }

  function LowUnit(c: char): (u: nat)
    requires c as int >= 0x10000
    ensures 0xDC00 <= u < 0xE000
  {
    0xDC00 + (c as int - 0x10000) % 0x400
  }

  /** Everything outside printable ASCII is escaped, beyond the basic plane as a pair. */
  function Escape(c: char): string {
    if ShortEscape(c).Some? then ['\\', ShortEscape(c).value]
    else if Printable(c) then [c]
    else if c as int < 0x10000 then "\\u" + UnitHex(c as int)
    else "\\u" + UnitHex(HighUnit(c)) + "\\u" + UnitHex(LowUnit(c))
  }

  /** What is left of a string literal, closing quote included, in front of `rest`. */
  function Quoted(s: string, rest: string): string
    decreases |s|
  {
    if s == "" then ['"'] + rest else Escape(s[0]) + Quoted(s[1..], rest)
  }

  // ----- Values -----

  /** The text of a value in front of `rest`. */
  function Encode(v: Json, rest: string): string {
    match v
    case Null => "null" + rest
    case Boolean(b) => (if b then "true" else "false") + rest
    case Number(numeral) => numeral + rest
    case Text(s) => ['"'] + Quoted(s, rest)
    case Array(End) => ['['] + ([']'] + rest)
    case Array(Item(head, tail)) => ['['] + Encode(head, EncodeItems(tail, rest))
    case Object(Empty) => ['{'] + (['}'] + rest)
    case Object(Member(key, value, others)) =>
      ['{'] + (['"'] + Quoted(key, [':'] + Encode(value, EncodeMembers(others, rest))))
  }

  /** What follows an array's first item, closing bracket included. */
  function EncodeItems(items: Items, rest: string): string {
    match items
    case End => [']'] + rest
    case Item(head, tail) => [','] + Encode(head, EncodeItems(tail, rest))
  }

  function EncodeMembers(members: Members, rest: string): string {
    match members
    case Empty => ['}'] + rest
    case Member(key, value, others) =>
      [','] + (['"'] + Quoted(key, [':'] + Encode(value, EncodeMembers(others, rest))))
  }

  // ----- Canonical order -----

  /** Strings compare by code points. */
  predicate Before(s: string, t: string)
    decreases |s|
  {
    t != "" && (s == "" || s[0] < t[0] || (s[0] == t[0] && Before(s[1..], t[1..])))
  }

  function Insert(key: string, value: Json, members: Members): Members {
    match members
    case Empty => Member(key, value, Empty)
    case Member(k, v, rest) =>
      if Before(k, key) then Member(k, v, Insert(key, value, rest)) else Member(key, value, members)
  }

  function Canon(v: Json): Json {
    match v
    case Array(items) => Array(CanonItems(items))
    case Object(members) => Object(CanonMembers(members))
    case _ => v
  }

  function CanonItems(items: Items): Items {
    match items
    case End => End
    case Item(head, tail) => Item(Canon(head), CanonItems(tail))
  }

  function CanonMembers(members: Members): Members {
    match members
    case Empty => Empty
    case Member(key, value, rest) => Insert(key, Canon(value), CanonMembers(rest))
  }

  /** The text that is hashed. */
  function Dump(v: Json): string {
    Encode(Canon(v), "")
  }

  // ----- Payloads a decoder produces -----

  predicate NumeralChar(c: char) {
    '0' <= c <= '9' || c in "+-.eNaInfity"
  }

  predicate Numeral(s: string) {
    && s != "" && ('0' <= s[0] <= '9' || s[0] in "-NI")
    && forall i | 0 <= i < |s| :: NumeralChar(s[i])
  }

  function Lookup(members: Members, key: string): Option<Json> {
    match members
    case Empty => None
    case Member(k, v, rest) => if k == key then Some(v) else Lookup(rest, key)
  }

  /** Numbers are numerals and no object has a key twice. */
  predicate Proper(v: Json) {
    match v
    case Number(numeral) => Numeral(numeral)
    case Array(items) => ProperItems(items)
    case Object(members) => ProperMembers(members)
    case _ => true
  }

  predicate ProperItems(items: Items) {
    items.Item? ==> Proper(items.head) && ProperItems(items.tail)
  }

  predicate ProperMembers(members: Members) {
    members.Member? ==>
      Proper(members.value) && Lookup(members.rest, members.key).None? && ProperMembers(members.rest)
  }

  // ----- Escapes read back -----

  /** The number a text of hexadecimal digits stands for; other characters count as nothing. */
  function Numeric(h: string): nat {
    if h == "" then 0
    else
      var d := h[|h| - 1];
      16 * Numeric(h[..|h| - 1])
      + if '0' <= d <= '9' then d as int - '0' as int
        else if 'a' <= d <= 'f' then d as int - 'a' as int + 10 else 0
  }

  predicate LowerHex(h: string) {
    forall k | 0 <= k < |h| :: '0' <= h[k] <= '9' || 'a' <= h[k] <= 'f'
  }

  function Pow16(n: nat): nat {
    if n == 0 then 1 else 16 * Pow16(n - 1)
  }

  lemma {:induction false} HexReadsBack(u: nat, n: nat)
    requires u < Pow16(n)
    ensures Numeric(Hex(u, n)) == u && LowerHex(Hex(u, n))
    decreases n
  {
    if n > 0 {
      HexReadsBack(u / 16, n - 1);
      assert Hex(u, n)[..n - 1] == Hex(u / 16, n - 1);
    }
  }

  /** Four lower-case digits that stand for the code unit. */
  predicate Spells(h: string, u: int) {
    |h| == 4 && LowerHex(h) && Numeric(h) == u
  }

  lemma UnitReadsBack(u: nat)
    requires u < 0x10000
    ensures Spells(UnitHex(u), u)
  {
    assert Pow16(4) == 16 * (16 * (16 * 16));
    hide Hex, Numeric, Pow16;
    HexReadsBack(u, 4);
  }

  /** Printable ASCII is written as itself, but for the quote and the backslash; these and five control
      characters are written by a letter. */
  lemma AsciiReadsBack(c: char)
    ensures c == '"' || c == '\\' ==> Escape(c) == ['\\', c]
    ensures 32 <= c as int <= 126 && c != '"' && c != '\\' ==> Escape(c) == [c]
    ensures c as int == 8 ==> Escape(c) == "\\b"
    ensures c as int == 9 ==> Escape(c) == "\\t"
    ensures c as int == 10 ==> Escape(c) == "\\n"
    ensures c as int == 12 ==> Escape(c) == "\\f"
    ensures c as int == 13 ==> Escape(c) == "\\r"
  {
    hide UnitHex;
  }

  /** Everything else is written as section 7 of RFC 8259 reads it back: by its code unit's digits, or
      by those of the two units of its surrogate pair. */
  lemma EscapeReadsBack(c: char)
    requires !(32 <= c as int <= 126) && !(8 <= c as int <= 10) && c as int != 12 && c as int != 13
    ensures var e := Escape(c);
            if c as int < 0x10000 then |e| == 6 && e[..2] == "\\u" && Spells(e[2..], c as int)
            else
              && |e| == 12 && e[..2] == "\\u" && e[6..8] == "\\u"
              && exists high, low :: Spells(e[2..6], high) && Spells(e[8..], low)
                                     && 0xD800 <= high < 0xDC00 <= low < 0xE000
                                     && 0x10000 + (high - 0xD800) * 0x400 + (low - 0xDC00) == c as int
  {
    hide UnitHex, Spells;
    var e := Escape(c);
    if c as int >= 0x10000 {
      UnitReadsBack(HighUnit(c));
      UnitReadsBack(LowUnit(c));
      assert e[2..6] == UnitHex(HighUnit(c)) && e[8..] == UnitHex(LowUnit(c)) && e[6..8] == "\\u";
    } else {
      UnitReadsBack(c as int);
      assert e[2..] == UnitHex(c as int);
    }
  }

  // ----- The text determines the tree -----

  lemma {:induction false} HexInjective(u: nat, w: nat, n: nat)
    requires u < Pow16(n) && w < Pow16(n) && Hex(u, n) == Hex(w, n)
    ensures u == w
    decreases n
  {
    if n > 0 {
      var h, g := Hex(u, n), Hex(w, n);
      assert h[n - 1] == HexDigit(u % 16) && g[n - 1] == HexDigit(w % 16);
      assert h[..n - 1] == Hex(u / 16, n - 1) && g[..n - 1] == Hex(w / 16, n - 1);
      HexInjective(u / 16, w / 16, n - 1);
    }
  }

  lemma UnitHexInjective(u: nat, w: nat)
    requires u < 0x10000 && w < 0x10000 && UnitHex(u) == UnitHex(w)
    ensures u == w
  {
    assert Pow16(4) == 16 * (16 * (16 * 16));
    HexInjective(u, w, 4);
  }

  /** An escape can be told off the front of any text. */
  lemma EscapeIsPrefixFree(c: char, d: char, x: string, y: string)
    requires Escape(c) + x == Escape(d) + y
    ensures c == d && x == y
  {
    var s, t := Escape(c) + x, Escape(d) + y;
    assert s[0] == t[0];
    assert s[0] == Escape(c)[0] && t[0] == Escape(d)[0];
    if Escape(c)[0] == '\\' {
      assert s[1] == Escape(c)[1] && t[1] == Escape(d)[1];
      if Escape(c)[1] == 'u' {
        UnitEscapes(c, d, x, y);
      } else {
        assert s[2..] == x && t[2..] == y;
      }
    } else {
      assert s[1..] == x && t[1..] == y;
    }
  }

  predicate LongEscape(c: char) {
    ShortEscape(c).None? && !Printable(c)
  }

  function FirstUnit(c: char): (u: nat)
    ensures u < 0x10000
  {
    if c as int < 0x10000 then c as int else HighUnit(c)
  }

  lemma UnitEscapes(c: char, d: char, x: string, y: string)
    requires LongEscape(c) && LongEscape(d) && Escape(c) + x == Escape(d) + y
    ensures c == d && x == y
  {
    hide Hex, UnitHex;
    var s, t := Escape(c) + x, Escape(d) + y;
    assert s[2..6] == UnitHex(FirstUnit(c)) && t[2..6] == UnitHex(FirstUnit(d));
    UnitHexInjective(FirstUnit(c), FirstUnit(d));
    if c as int < 0x10000 {
      assert s[6..] == x && t[6..] == y;
    } else {
      assert s[8..12] == UnitHex(LowUnit(c)) && t[8..12] == UnitHex(LowUnit(d));
      UnitHexInjective(LowUnit(c), LowUnit(d));
      assert s[12..] == x && t[12..] == y;
    }
  }

  lemma EscapeStart(c: char, x: string)
    ensures (Escape(c) + x) != "" && (Escape(c) + x)[0] != '"'
  {
  }

  lemma SameHead(c: char, x: string, d: char, y: string)
    requires [c] + x == [d] + y
    ensures c == d && x == y
  {
    assert ([c] + x)[0] == c && ([d] + y)[0] == d;
    assert ([c] + x)[1..] == x && ([d] + y)[1..] == y;
  }

  lemma {:induction false} QuotedIsPrefixFree(s: string, t: string, x: string, y: string)
    requires Quoted(s, x) == Quoted(t, y)
    ensures s == t && x == y
    decreases |s|
  {
    hide Escape;
    if s == "" && t == "" {
      SameHead('"', x, '"', y);
    } else if s == "" {
      EscapeStart(t[0], Quoted(t[1..], y));
    } else if t == "" {
      EscapeStart(s[0], Quoted(s[1..], x));
    } else {
      EscapeIsPrefixFree(s[0], t[0], Quoted(s[1..], x), Quoted(t[1..], y));
      QuotedIsPrefixFree(s[1..], t[1..], x, y);
      assert s == [s[0]] + s[1..] && t == [t[0]] + t[1..];
    }
  }

  /** A value ends where the text does, or at a comma or a closing bracket. */
  predicate Ended(rest: string) {
    rest == "" || rest[0] == ',' || rest[0] == ']' || rest[0] == '}'
  }

  predicate AllNumeral(s: string) {
    forall i | 0 <= i < |s| :: NumeralChar(s[i])
  }

  lemma NumeralGoesOn(s: string, x: string, y: string)
    requires s != "" && AllNumeral(s) && Ended(y)
    ensures s + x != y
  {
    assert (s + x)[0] == s[0];
  }

  lemma {:induction false} NumeralIsPrefixFree(s: string, t: string, x: string, y: string)
    requires s + x == t + y && Ended(x) && Ended(y) && AllNumeral(s) && AllNumeral(t)
    ensures s == t && x == y
    decreases |s|
  {
    assert (s == "" ==> s + x == x) && (t == "" ==> t + y == y);
    if s == "" && t == "" {
    } else if s == "" {
      NumeralGoesOn(t, y, x);
    } else if t == "" {
      NumeralGoesOn(s, x, y);
    } else {
      assert s + x == [s[0]] + (s[1..] + x) && t + y == [t[0]] + (t[1..] + y);
      SameHead(s[0], s[1..] + x, t[0], t[1..] + y);
      NumeralIsPrefixFree(s[1..], t[1..], x, y);
      assert s == [s[0]] + s[1..] && t == [t[0]] + t[1..];
    }
  }

  /** The first character tells the kind of a value. */
  predicate Starts(v: Json, c: char) {
    match v
    case Null => c == 'n'
    case Boolean(b) => c == if b then 't' else 'f'
    case Number(_) => '0' <= c <= '9' || c == '-' || c == 'N' || c == 'I'
    case Text(_) => c == '"'
    case Array(_) => c == '['
    case Object(_) => c == '{'
  }

  lemma FirstCharacter(v: Json, rest: string)
    requires Proper(v)
    ensures Encode(v, rest) != "" && Starts(v, Encode(v, rest)[0])
  {
  }

  lemma ItemsEnd(items: Items, rest: string)
    ensures Ended(EncodeItems(items, rest))
  {
  }

  lemma MembersEnd(members: Members, rest: string)
    ensures Ended(EncodeMembers(members, rest))
  {
  }

  lemma ConstantIsPrefixFree(s: string, x: string, y: string)
    requires s + x == s + y
    ensures x == y
  {
    assert (s + x)[|s|..] == x && (s + y)[|s|..] == y;
  }

  lemma SameKind(v: Json, w: Json, x: string, y: string)
    requires Proper(v) && Proper(w) && Encode(v, x) == Encode(w, y)
    ensures v.Null? == w.Null? && v.Number? == w.Number? && v.Text? == w.Text?
    ensures v.Array? == w.Array? && v.Object? == w.Object?
    ensures v.Boolean? && w.Boolean? ==> v == w
  {
    FirstCharacter(v, x);
    FirstCharacter(w, y);
    hide Encode;
  }

  lemma {:induction false} EncodeIsPrefixFree(v: Json, w: Json, x: string, y: string)
    requires Proper(v) && Proper(w) && Encode(v, x) == Encode(w, y) && Ended(x) && Ended(y)
    ensures v == w && x == y
    decreases v
  {
    SameKind(v, w, x, y);
    match v {
      case Null => ConstantIsPrefixFree("null", x, y);
      case Boolean(b) => ConstantIsPrefixFree(if b then "true" else "false", x, y);
      case Number(numeral) => NumeralIsPrefixFree(numeral, w.numeral, x, y);
      case Text(s) =>
        SameHead('"', Quoted(s, x), '"', Quoted(w.text, y));
        QuotedIsPrefixFree(s, w.text, x, y);
      case Array(items) => ArrayIsPrefixFree(items, w.items, x, y);
      case Object(members) => ObjectIsPrefixFree(members, w.members, x, y);
    }
  }

  lemma {:induction false} ArrayIsPrefixFree(items: Items, others: Items, x: string, y: string)
    requires ProperItems(items) && ProperItems(others) && Encode(Array(items), x) == Encode(Array(others), y)
    ensures items == others && x == y
    decreases items
  {
    var p := if items.End? then [']'] + x else Encode(items.head, EncodeItems(items.tail, x));
    var q := if others.End? then [']'] + y else Encode(others.head, EncodeItems(others.tail, y));
    SameHead('[', p, '[', q);
    if items.Item? { FirstCharacter(items.head, EncodeItems(items.tail, x)); }
    if others.Item? { FirstCharacter(others.head, EncodeItems(others.tail, y)); }
    hide Encode;
    if items.End? && others.End? {
      SameHead(']', x, ']', y);
    } else {
      assert p[0] == q[0];
      assert items.Item? && others.Item?;
      ItemsEnd(items.tail, x);
      ItemsEnd(others.tail, y);
      EncodeIsPrefixFree(items.head, others.head, EncodeItems(items.tail, x), EncodeItems(others.tail, y));
      ItemsArePrefixFree(items.tail, others.tail, x, y);
    }
  }

  lemma {:induction false} ItemsArePrefixFree(items: Items, others: Items, x: string, y: string)
    requires ProperItems(items) && ProperItems(others) && EncodeItems(items, x) == EncodeItems(others, y)
    ensures items == others && x == y
    decreases items
  {
    assert EncodeItems(items, x)[0] == EncodeItems(others, y)[0];
    if items.End? {
      SameHead(']', x, ']', y);
    } else {
      SameHead(',', Encode(items.head, EncodeItems(items.tail, x)), ',', Encode(others.head, EncodeItems(others.tail, y)));
      hide Encode;
      ItemsEnd(items.tail, x);
      ItemsEnd(others.tail, y);
      EncodeIsPrefixFree(items.head, others.head, EncodeItems(items.tail, x), EncodeItems(others.tail, y));
      ItemsArePrefixFree(items.tail, others.tail, x, y);
    }
  }

  /** An object's first member, from its opening quote on. */
  function FromFirst(members: Members, rest: string): string
    requires members.Member?
  {
    ['"'] + Quoted(members.key, [':'] + Encode(members.value, EncodeMembers(members.rest, rest)))
  }

  lemma {:induction false} ObjectIsPrefixFree(members: Members, others: Members, x: string, y: string)
    requires ProperMembers(members) && ProperMembers(others)
    requires Encode(Object(members), x) == Encode(Object(others), y)
    ensures members == others && x == y
    decreases members, 1
  {
    var p := if members.Empty? then ['}'] + x else FromFirst(members, x);
    var q := if others.Empty? then ['}'] + y else FromFirst(others, y);
    SameHead('{', p, '{', q);
    hide Encode, Quoted;
    if members.Empty? && others.Empty? {
      SameHead('}', x, '}', y);
    } else {
      assert p[0] == q[0];
      assert members.Member? && others.Member?;
      MemberIsPrefixFree(members, others, x, y);
    }
  }

  lemma {:induction false} MembersArePrefixFree(members: Members, others: Members, x: string, y: string)
    requires ProperMembers(members) && ProperMembers(others)
    requires EncodeMembers(members, x) == EncodeMembers(others, y)
    ensures members == others && x == y
    decreases members, 1
  {
    hide Encode, Quoted;
    assert EncodeMembers(members, x)[0] == EncodeMembers(others, y)[0];
    if members.Empty? {
      SameHead('}', x, '}', y);
    } else {
      SameHead(',', FromFirst(members, x), ',', FromFirst(others, y));
      MemberIsPrefixFree(members, others, x, y);
    }
  }

  lemma {:induction false} MemberIsPrefixFree(members: Members, others: Members, x: string, y: string)
    requires members.Member? && others.Member? && ProperMembers(members) && ProperMembers(others)
    requires FromFirst(members, x) == FromFirst(others, y)
    ensures members == others && x == y
    decreases members, 0
  {
    hide Encode, Quoted, EncodeMembers;
    var p, q := EncodeMembers(members.rest, x), EncodeMembers(others.rest, y);
    var v, w := Encode(members.value, p), Encode(others.value, q);
    SameHead('"', Quoted(members.key, [':'] + v), '"', Quoted(others.key, [':'] + w));
    QuotedIsPrefixFree(members.key, others.key, [':'] + v, [':'] + w);
    SameHead(':', v, ':', w);
    MembersEnd(members.rest, x);
    MembersEnd(others.rest, y);
    EncodeIsPrefixFree(members.value, others.value, p, q);
    MembersArePrefixFree(members.rest, others.rest, x, y);
  }

  // ----- Payloads with the same text -----

  function Size(v: Json): nat {
    match v
    case Array(items) => 1 + ItemsSize(items)
    case Object(members) => 1 + MembersSize(members)
    case _ => 0
  }

  function ItemsSize(items: Items): nat {
    match items
    case End => 0
    case Item(head, tail) => 1 + Size(head) + ItemsSize(tail)
  }

  function MembersSize(members: Members): nat {
    match members
    case Empty => 0
    case Member(_, value, rest) => 1 + Size(value) + MembersSize(rest)
  }

  lemma {:induction false} LookupSize(members: Members, key: string)
    ensures Lookup(members, key).Some? ==> Size(Lookup(members, key).value) < MembersSize(members)
    decreases members
  {
    if members.Member? { LookupSize(members.rest, key); }
  }

  /** The same value with objects read as unordered collections, at every depth. */
  ghost predicate Same(v: Json, w: Json)
    decreases Size(v)
  {
    match v
    case Array(items) => w.Array? && SameItems(items, w.items)
    case Object(members) =>
      w.Object? && forall key ::
        var a, b := Lookup(members, key), Lookup(w.members, key);
        LookupSize(members, key);
        a.Some? == b.Some? && (a.Some? ==> Same(a.value, b.value))
    case _ => v == w
  }

  ghost predicate SameItems(items: Items, others: Items)
    decreases ItemsSize(items)
  {
    match items
    case End => others.End?
    case Item(head, tail) => others.Item? && Same(head, others.head) && SameItems(tail, others.tail)
  }

  lemma {:induction false} BeforeIsStrict(s: string, t: string)
    ensures !(Before(s, t) && Before(t, s))
    ensures Before(s, t) || Before(t, s) || s == t
    ensures !Before(s, s)
    decreases |s|
  {
    if s != "" {
      BeforeIsStrict(s[1..], if t == "" then "" else t[1..]);
      if t != "" && s[0] == t[0] {
        assert s == [s[0]] + s[1..] && t == [t[0]] + t[1..];
      }
    }
  }

  lemma {:induction false} BeforeIsTransitive(s: string, t: string, u: string)
    requires Before(s, t) && Before(t, u)
    ensures Before(s, u)
    decreases |s|
  {
    if s != "" && s[0] == t[0] == u[0] {
      BeforeIsTransitive(s[1..], t[1..], u[1..]);
    }
  }

  ghost predicate Sorted(members: Members) {
    members.Member? ==>
      && (forall key :: Lookup(members.rest, key).Some? ==> Before(members.key, key))
      && Sorted(members.rest)
  }

  lemma {:induction false} InsertPlaces(key: string, value: Json, members: Members)
    requires Sorted(members) && Lookup(members, key).None?
    ensures Sorted(Insert(key, value, members))
    ensures forall k :: Lookup(Insert(key, value, members), k) == if k == key then Some(value) else Lookup(members, k)
    decreases members
  {
    if members.Member? {
      if Before(members.key, key) {
        InsertPlaces(key, value, members.rest);
      } else {
        BeforeIsStrict(members.key, key);
        forall k | Lookup(members, k).Some? ensures Before(key, k) {
          if k != members.key { BeforeIsTransitive(key, members.key, k); }
        }
      }
    }
  }

  function CanonOption(v: Option<Json>): Option<Json> {
    if v.Some? then Some(Canon(v.value)) else None
  }

  lemma {:induction false} CanonSorts(members: Members)
    requires ProperMembers(members)
    ensures Sorted(CanonMembers(members))
    ensures forall key :: Lookup(CanonMembers(members), key) == CanonOption(Lookup(members, key))
    decreases members
  {
    if members.Member? {
      CanonSorts(members.rest);
      InsertPlaces(members.key, Canon(members.value), CanonMembers(members.rest));
    }
  }

  lemma {:induction false} SortedListsAgree(members: Members, others: Members)
    requires Sorted(members) && Sorted(others)
    requires forall key :: Lookup(members, key) == Lookup(others, key)
    ensures members == others
    decreases members
  {
    assert others.Member? ==> Lookup(members, others.key) == Lookup(others, others.key);
    if members.Member? {
      assert Lookup(others, members.key) == Lookup(members, members.key);
      BeforeIsStrict(members.key, others.key);
      assert members.key == others.key;
      forall key ensures Lookup(members.rest, key) == Lookup(others.rest, key) {
        BeforeIsStrict(key, key);
        assert Lookup(members, key) == Lookup(others, key);
      }
      SortedListsAgree(members.rest, others.rest);
    }
  }

  /** Two payloads have the same canonical form exactly if they differ at most in the order of
      object members. */
  lemma {:induction false} CanonIsSame(v: Json, w: Json)
    requires Proper(v) && Proper(w)
    ensures Canon(v) == Canon(w) <==> Same(v, w)
    decreases Size(v)
  {
    if v.Array? && w.Array? {
      CanonItemsAreSame(v.items, w.items);
    } else if v.Object? && w.Object? {
      CanonMembersAreSame(v.members, w.members);
    }
  }

  lemma {:induction false} CanonItemsAreSame(items: Items, others: Items)
    requires ProperItems(items) && ProperItems(others)
    ensures CanonItems(items) == CanonItems(others) <==> SameItems(items, others)
    decreases ItemsSize(items)
  {
    if items.Item? && others.Item? {
      CanonIsSame(items.head, others.head);
      CanonItemsAreSame(items.tail, others.tail);
    }
  }

  lemma {:induction false} CanonMembersAreSame(members: Members, others: Members)
    requires ProperMembers(members) && ProperMembers(others)
    ensures CanonMembers(members) == CanonMembers(others) <==> Same(Object(members), Object(others))
    decreases MembersSize(members)
  {
    var m, n := CanonMembers(members), CanonMembers(others);
    CanonSorts(members);
    CanonSorts(others);
    forall key
      ensures Lookup(m, key) == Lookup(n, key)
              <==> (var a, b := Lookup(members, key), Lookup(others, key);
                    a.Some? == b.Some? && (a.Some? ==> Same(a.value, b.value)))
    {
      var a, b := Lookup(members, key), Lookup(others, key);
      if a.Some? && b.Some? {
        LookupSize(members, key);
        LookupProper(members, key);
        LookupProper(others, key);
        CanonIsSame(a.value, b.value);
      }
    }
    if Same(Object(members), Object(others)) {
      SortedListsAgree(m, n);
    }
  }

  lemma {:induction false} LookupProper(members: Members, key: string)
    requires ProperMembers(members) && Lookup(members, key).Some?
    ensures Proper(Lookup(members, key).value)
    decreases members
  {
    if members.key != key { LookupProper(members.rest, key); }
  }

  lemma {:induction false} CanonIsProper(v: Json)
    requires Proper(v)
    ensures Proper(Canon(v))
    decreases v
  {
    match v {
      case Array(items) => CanonItemsAreProper(items);
      case Object(members) => CanonMembersAreProper(members);
      case _ =>
    }
  }

  lemma {:induction false} CanonItemsAreProper(items: Items)
    requires ProperItems(items)
    ensures ProperItems(CanonItems(items))
    decreases items
  {
    if items.Item? {
      CanonIsProper(items.head);
      CanonItemsAreProper(items.tail);
    }
  }

  lemma {:induction false} CanonMembersAreProper(members: Members)
    requires ProperMembers(members)
    ensures ProperMembers(CanonMembers(members))
    decreases members
  {
    if members.Member? {
      CanonIsProper(members.value);
      CanonMembersAreProper(members.rest);
      CanonSorts(members.rest);
      InsertIsProper(members.key, Canon(members.value), CanonMembers(members.rest));
    }
  }

  lemma {:induction false} InsertIsProper(key: string, value: Json, members: Members)
    requires Sorted(members) && ProperMembers(members) && Proper(value) && Lookup(members, key).None?
    ensures ProperMembers(Insert(key, value, members))
    decreases members
  {
    if members.Member? {
      if Before(members.key, key) {
        InsertPlaces(key, value, members.rest);
        InsertIsProper(key, value, members.rest);
      }
    }
  }

  /** The hashed text is the same exactly for payloads that differ at most in the order of object
      members, at any depth. */
  lemma DumpDetermines(v: Json, w: Json)
    requires Proper(v) && Proper(w)
    ensures Dump(v) == Dump(w) <==> Same(v, w)
  {
    CanonIsProper(v);
    CanonIsProper(w);
    CanonIsSame(v, w);
    if Dump(v) == Dump(w) {
      EncodeIsPrefixFree(Canon(v), Canon(w), "", "");
    }
  }
}
