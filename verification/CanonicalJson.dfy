/**
 * `stableStringify` (proxy/client-session.ts:251-264): JSON text with the keys of every
 * object sorted. Text is a sequence of UTF-16 code units, as in JavaScript; the grammar is
 * that of sections 4 to 7 of RFC 8259 as `JSON.stringify` writes it.
 */
module CanonicalJson {
  import opened Util

  type Unit = u: int | 0 <= u < 65536

  type Text = seq<Unit>

  /** A parsed number: `Finite` carries its shortest decimal form, which identifies it. */
  datatype Number = Finite(digits: Text) | NegativeZero | Infinite

  datatype Json =
    | Null
    | Bool(value: bool)
    | Num(number: Number)
    | Str(text: Text)
    | Arr(items: Items)
    | Obj(members: Members)
    | Undefined

  datatype Items = NoItems | Item(first: Json, rest: Items)

  datatype Members = NoMembers | Member(key: Text, value: Json, others: Members)

  const QUOTE: Unit := 34
  const COMMA: Unit := 44
  const COLON: Unit := 58
  const BACKSLASH: Unit := 92
  const OPEN_ARRAY: Unit := 91
  const CLOSE_ARRAY: Unit := 93
  const OPEN_OBJECT: Unit := 123
  const CLOSE_OBJECT: Unit := 125
  const NULL_WORD: Text := [110, 117, 108, 108]
  const TRUE_WORD: Text := [116, 114, 117, 101]
  const FALSE_WORD: Text := [102, 97, 108, 115, 101]
  const UNDEFINED_WORD: Text := [117, 110, 100, 101, 102, 105, 110, 101, 100]

  // ---------------------------------------------------------------------------
  // Strings
  // ---------------------------------------------------------------------------

  predicate IsHigh(u: Unit) {
    0xd800 <= u < 0xdc00
  }

  predicate IsLow(u: Unit) {
    0xdc00 <= u < 0xe000
  }

  /** A lower-case hexadecimal digit. */
  function HexDigit(d: nat): Unit
    requires d < 16
  {
    if d < 10 then 48 + d else 87 + d
  }

  function HexValue(u: Unit): nat {
    if 48 <= u < 58 then u - 48 else if 97 <= u < 103 then u - 87 else 0
  }

  function Hex4(u: Unit): Text {
    [HexDigit(u / 4096), HexDigit(u / 256 % 16), HexDigit(u / 16 % 16), HexDigit(u % 16)]
  }

  /** Letter of a short escape, if the unit has one. */
  function ShortEscape(u: Unit): Option<Unit> {
    match u
    case 34 => Some(34)
    case 92 => Some(92)
    case 8 => Some(98)
    case 12 => Some(102)
    case 10 => Some(110)
    case 13 => Some(114)
    case 9 => Some(116)
    case _ => None
  }

  function Escape(u: Unit): Text {
    match ShortEscape(u)
    case Some(letter) => [BACKSLASH, letter]
    case None => if u < 32 || IsHigh(u) || IsLow(u) then [BACKSLASH, 117] + Hex4(u) else [u]
  }

  /** Surrogate pairs stand as they are; lone surrogates are escaped. */
  function Body(s: Text): Text {
    if s == [] then []
    else if |s| >= 2 && IsHigh(s[0]) && IsLow(s[1]) then s[..2] + Body(s[2..])
    else Escape(s[0]) + Body(s[1..])
  }

  function Quote(s: Text): Text {
    [QUOTE] + Body(s) + [QUOTE]
  }

  // ---------------------------------------------------------------------------
  // Values
  // ---------------------------------------------------------------------------

  function NumberText(n: Number): Text {
    match n
    case Finite(digits) => digits
    case NegativeZero => [48]
    case Infinite => NULL_WORD
  }

  /** Order of strings by code unit, as `sort` compares keys. */
  predicate Less(a: Text, b: Text) {
    if b == [] then false
    else if a == [] then true
    else if a[0] != b[0] then a[0] < b[0]
    else Less(a[1..], b[1..])
  }

  function Insert(key: Text, value: Json, members: Members): (r: Members)
    ensures MembersSize(r) == Size(value) + MembersSize(members) + 1
  {
    if members.NoMembers? || Less(key, members.key) then Member(key, value, members)
    else Member(members.key, members.value, Insert(key, value, members.others))
  }

  function Sort(members: Members): (r: Members)
    ensures MembersSize(r) == MembersSize(members)
  {
    if members.NoMembers? then NoMembers else Insert(members.key, members.value, Sort(members.others))
  }

  function Size(v: Json): nat {
    match v
    case Arr(items) => 1 + ItemsSize(items)
    case Obj(members) => 1 + MembersSize(members)
    case _ => 1
  }

  function ItemsSize(items: Items): nat {
    if items.NoItems? then 0 else 1 + Size(items.first) + ItemsSize(items.rest)
  }

  function MembersSize(members: Members): nat {
    if members.NoMembers? then 0 else 1 + Size(members.value) + MembersSize(members.others)
  }

  /** `stableStringify`. */
  function Stringify(v: Json): Text
    decreases Size(v), 0
  {
    match v
    case Null => NULL_WORD
    case Bool(b) => if b then TRUE_WORD else FALSE_WORD
    case Num(n) => NumberText(n)
    case Str(s) => Quote(s)
    case Undefined => UNDEFINED_WORD
    case Arr(items) =>
      [OPEN_ARRAY] + (if items.NoItems? then [CLOSE_ARRAY] else Stringify(items.first) + StringifyItems(items.rest))
    case Obj(members) =>
      var sorted := Sort(members);
      [OPEN_OBJECT]
      + (if sorted.NoMembers? then [CLOSE_OBJECT]
         else
           assert Size(v) == 1 + MembersSize(sorted) == 2 + Size(sorted.value) + MembersSize(sorted.others);
           Quote(sorted.key) + [COLON] + Stringify(sorted.value) + StringifyMembers(sorted.others))
  }

  /** The elements after the first, joined with commas, and the closing bracket. */
  function StringifyItems(items: Items): Text
    decreases ItemsSize(items), 1
  {
    if items.NoItems? then [CLOSE_ARRAY]
    else [COMMA] + Stringify(items.first) + StringifyItems(items.rest)
  }

  function StringifyMembers(members: Members): Text
    decreases MembersSize(members), 1
  {
    if members.NoMembers? then [CLOSE_OBJECT]
    else [COMMA] + Quote(members.key) + [COLON] + Stringify(members.value) + StringifyMembers(members.others)
  }

  // ---------------------------------------------------------------------------
  // What JSON.parse can produce, and when two values are the same
  // ---------------------------------------------------------------------------

  predicate IsDigitUnit(u: Unit) {
    48 <= u < 58 || u == 43 || u == 45 || u == 46 || u == 101
  }

  predicate IsDecimal(digits: Text) {
    && digits != [] && (digits[0] == 45 || 48 <= digits[0] < 58)
    && forall i :: 0 <= i < |digits| ==> IsDigitUnit(digits[i])
  }

  function Keys(members: Members): set<Text> {
    if members.NoMembers? then {} else {members.key} + Keys(members.others)
  }

  /** Keys are distinct, numbers are decimals, and only a member may be undefined. */
  predicate Wf(v: Json) {
    match v
    case Num(Finite(digits)) => IsDecimal(digits)
    case Arr(items) => WfItems(items)
    case Obj(members) => WfMembers(members)
    case _ => true
  }

  predicate WfItems(items: Items) {
    items.Item? ==> Wf(items.first) && !items.first.Undefined? && WfItems(items.rest)
  }

  predicate WfMembers(members: Members) {
    members.Member? ==> Wf(members.value) && members.key !in Keys(members.others) && WfMembers(members.others)
  }

  function Get(members: Members, key: Text): (v: Json)
    requires key in Keys(members)
    ensures Size(v) < MembersSize(members)
  {
    if members.key == key then members.value else Get(members.others, key)
  }

  /** Equal but for the order in which objects list their keys. */
  ghost predicate Same(v: Json, w: Json)
    decreases Size(v), 0
  {
    match (v, w)
    case (Arr(items), Arr(others)) => SameItems(items, others)
    case (Obj(members), Obj(others)) =>
      && Keys(members) == Keys(others)
      && forall key :: key in Keys(members) ==> Same(Get(members, key), Get(others, key))
    case _ => v == w
  }

  ghost predicate SameItems(items: Items, others: Items)
    decreases ItemsSize(items), 1
  {
    match (items, others)
    case (Item(v, rest), Item(w, more)) => Same(v, w) && SameItems(rest, more)
    case _ => items == others
  }

  /** The value with each number replaced by what its text reads back as. */
  function AsPrinted(v: Json): Json {
    match v
    case Num(NegativeZero) => Num(Finite([48]))
    case Num(Infinite) => Null
    case Arr(items) => Arr(ItemsAsPrinted(items))
    case Obj(members) => Obj(MembersAsPrinted(members))
    case _ => v
  }

  function ItemsAsPrinted(items: Items): Items {
    if items.NoItems? then NoItems else Item(AsPrinted(items.first), ItemsAsPrinted(items.rest))
  }

  function MembersAsPrinted(members: Members): (r: Members)
    ensures Keys(r) == Keys(members)
  {
    if members.NoMembers? then NoMembers
    else Member(members.key, AsPrinted(members.value), MembersAsPrinted(members.others))
  }

  // ---------------------------------------------------------------------------
  // Strings read back
  // ---------------------------------------------------------------------------

  function LongEscape(letter: Unit): Unit {
    match letter
    case 98 => 8
    case 102 => 12
    case 110 => 10
    case 114 => 13
    case 116 => 9
    case _ => letter
  }

  function UnHex(t: Text): Unit
    requires |t| >= 4
  {
    var u := HexValue(t[0]) * 4096 + HexValue(t[1]) * 256 + HexValue(t[2]) * 16 + HexValue(t[3]);
    if u < 65536 then u else 0
  }

  /** Reads a string up to its closing quote; the units read and the text left. */
  function ReadBody(t: Text): Option<(Text, Text)> {
    if t == [] then None
    else if t[0] == QUOTE then Some(([], t[1..]))
    else if t[0] != BACKSLASH then Prefixed(t[0], ReadBody(t[1..]))
    else if |t| < 2 then None
    else if t[1] != 117 then Prefixed(LongEscape(t[1]), ReadBody(t[2..]))
    else if |t| < 6 then None
    else Prefixed(UnHex(t[2..6]), ReadBody(t[6..]))
  }

  function Prefixed(u: Unit, read: Option<(Text, Text)>): Option<(Text, Text)> {
    match read
    case Some(pair) => Some(([u] + pair.0, pair.1))
    case None => None
  }

  lemma HexDigitRoundTrip(d: nat)
    requires d < 16
    ensures HexValue(HexDigit(d)) == d
  {
  }

  lemma Digits(u: Unit)
    ensures u / 4096 < 16 && u == u / 4096 * 4096 + u / 256 % 16 * 256 + u / 16 % 16 * 16 + u % 16
  {
    var a := u / 16;
    var b := a / 16;
    assert b == u / 256 && b / 16 == u / 4096;
  }

  lemma HexRoundTrip(u: Unit)
    ensures UnHex(Hex4(u)) == u
  {
    hide HexDigit, HexValue;
    Digits(u);
    HexDigitRoundTrip(u / 4096);
    HexDigitRoundTrip(u / 256 % 16);
    HexDigitRoundTrip(u / 16 % 16);
    HexDigitRoundTrip(u % 16);
  }

  /** One escaped unit is read back, and what follows it is untouched. */
  lemma EscapeReadsBack(u: Unit, t: Text)
    ensures ReadBody(Escape(u) + t) == Prefixed(u, ReadBody(t))
  {
    var text := Escape(u) + t;
    if ShortEscape(u).Some? {
      assert text[2..] == t;
    } else if u < 32 || IsHigh(u) || IsLow(u) {
      HexRoundTrip(u);
      assert text[2..6] == Hex4(u) && text[6..] == t;
      assert text[0] == BACKSLASH && text[1] == 117;
    } else {
      assert text[1..] == t;
    }
  }

  /** A quoted string is read back whole. */
  lemma {:induction false} QuoteRoundTrip(s: Text, a: Text)
    ensures ReadBody(Body(s) + [QUOTE] + a) == Some((s, a))
  {
    hide ReadBody, Escape;
    if s == [] {
      assert Body(s) + [QUOTE] + a == [QUOTE] + a;
      ReadQuote(a);
    } else if |s| >= 2 && IsHigh(s[0]) && IsLow(s[1]) {
      QuoteRoundTrip(s[2..], a);
      var rest := Body(s[2..]) + [QUOTE] + a;
      assert Body(s) + [QUOTE] + a == [s[0]] + ([s[1]] + rest);
      ReadVerbatim(s[0], [s[1]] + rest);
      ReadVerbatim(s[1], rest);
      assert [s[0]] + ([s[1]] + s[2..]) == s;
    } else {
      QuoteRoundTrip(s[1..], a);
      var rest := Body(s[1..]) + [QUOTE] + a;
      assert Body(s) + [QUOTE] + a == Escape(s[0]) + rest;
      EscapeReadsBack(s[0], rest);
      assert [s[0]] + s[1..] == s;
    }
  }

  lemma ReadQuote(a: Text)
    ensures ReadBody([QUOTE] + a) == Some(([], a))
  {
    assert ([QUOTE] + a)[1..] == a;
  }

  lemma ReadVerbatim(u: Unit, t: Text)
    requires u != QUOTE && u != BACKSLASH
    ensures ReadBody([u] + t) == Prefixed(u, ReadBody(t))
  {
    assert ([u] + t)[1..] == t;
  }

  lemma QuoteInjective(s: Text, z: Text, a: Text, b: Text)
    requires Quote(s) + a == Quote(z) + b
    ensures s == z && a == b
  {
    hide Body, ReadBody;
    QuoteRoundTrip(s, a);
    QuoteRoundTrip(z, b);
    assert (Quote(s) + a)[1..] == Body(s) + [QUOTE] + a;
    assert (Quote(z) + b)[1..] == Body(z) + [QUOTE] + b;
  }

  // ---------------------------------------------------------------------------
  // Sorting keys
  // ---------------------------------------------------------------------------

  lemma {:induction false} LessIsStrict(a: Text, b: Text)
    ensures !(Less(a, b) && Less(b, a))
    ensures a == b ==> !Less(a, b)
    ensures a == b || Less(a, b) || Less(b, a)
  {
    if a == [] || b == [] || a[0] != b[0] {
    } else {
      LessIsStrict(a[1..], b[1..]);
      assert a == [a[0]] + a[1..] && b == [b[0]] + b[1..];
    }
  }

  lemma {:induction false} LessTransitive(a: Text, b: Text, c: Text)
    requires Less(a, b) && Less(b, c)
    ensures Less(a, c)
  {
    if a == [] || a[0] != b[0] || b[0] != c[0] {
    } else {
      LessTransitive(a[1..], b[1..], c[1..]);
    }
  }

  ghost predicate Below(key: Text, members: Members) {
    forall k :: k in Keys(members) ==> Less(key, k)
  }

  ghost predicate Sorted(members: Members) {
    members.Member? ==> Below(members.key, members.others) && Sorted(members.others)
  }

  lemma {:induction false} InsertSorts(key: Text, value: Json, members: Members)
    requires Sorted(members) && key !in Keys(members)
    ensures var r := Insert(key, value, members);
            && Sorted(r) && Keys(r) == Keys(members) + {key}
            && forall k :: k in Keys(r) ==> Get(r, k) == if k == key then value else Get(members, k)
  {
    if members.NoMembers? {
    } else {
      LessIsStrict(key, members.key);
      if Less(key, members.key) {
        forall k | k in Keys(members.others) ensures Less(key, k) {
          LessTransitive(key, members.key, k);
        }
      } else {
        InsertSorts(key, value, members.others);
      }
    }
  }

  lemma {:induction false} SortSorts(members: Members)
    requires WfMembers(members)
    ensures var r := Sort(members);
            && Sorted(r) && Keys(r) == Keys(members)
            && forall k :: k in Keys(members) ==> Get(r, k) == Get(members, k)
  {
    if members.NoMembers? {
    } else {
      SortSorts(members.others);
      InsertSorts(members.key, members.value, Sort(members.others));
    }
  }

  lemma KeysEmptyIff(members: Members)
    ensures Keys(members) == {} <==> members.NoMembers?
  {
    if members.Member? {
      assert members.key in Keys(members);
    }
  }

  /** The smallest key of two sorted lists over one key set is the first of both. */
  lemma SameHead(ms: Members, ns: Members)
    requires Sorted(ms) && Sorted(ns) && ms.Member? && ns.Member? && Keys(ms) == Keys(ns)
    ensures ms.key == ns.key && Keys(ms.others) == Keys(ns.others)
  {
    assert ms.key in Keys(ns) && ns.key in Keys(ms);
    LessIsStrict(ms.key, ns.key);
    assert ms.key !in Keys(ms.others) by { LessIsStrict(ms.key, ms.key); }
    assert ns.key !in Keys(ns.others) by { LessIsStrict(ns.key, ns.key); }
    assert Keys(ms.others) == Keys(ms) - {ms.key};
    assert Keys(ns.others) == Keys(ns) - {ns.key};
  }

  // ---------------------------------------------------------------------------
  // Unique readability
  // ---------------------------------------------------------------------------

  /** No number prints as something other than itself. */
  predicate Plain(v: Json) {
    match v
    case Num(n) => n.Finite?
    case Arr(items) => PlainItems(items)
    case Obj(members) => PlainMembers(members)
    case _ => true
  }

  predicate PlainItems(items: Items) {
    items.Item? ==> Plain(items.first) && PlainItems(items.rest)
  }

  predicate PlainMembers(members: Members) {
    members.Member? ==> Plain(members.value) && PlainMembers(members.others)
  }

  /** What can follow a value inside a text. */
  predicate Delimited(a: Text) {
    a == [] || a[0] == COMMA || a[0] == CLOSE_ARRAY || a[0] == CLOSE_OBJECT
  }

  function Lead(v: Json): Unit {
    match v
    case Null => 110
    case Bool(b) => if b then 116 else 102
    case Num(Finite(digits)) => if digits == [] then 48 else digits[0]
    case Num(_) => 48
    case Str(_) => QUOTE
    case Arr(_) => OPEN_ARRAY
    case Obj(_) => OPEN_OBJECT
    case Undefined => 117
  }

  lemma FirstUnit(v: Json, a: Text)
    requires Wf(v) && Plain(v)
    ensures Stringify(v) != [] && (Stringify(v) + a)[0] == Lead(v)
    ensures Lead(v) != CLOSE_ARRAY && Lead(v) != CLOSE_OBJECT
  {
  }

  lemma NextUnit(m: Text, n: Text, a: Text, b: Text)
    requires |m| < |n| && m + a == n + b
    ensures a != [] && a[0] == n[|m|]
  {
    assert (m + a)[|m|] == (n + b)[|m|];
  }

  lemma NumberReadable(m: Text, n: Text, a: Text, b: Text)
    requires IsDecimal(m) && IsDecimal(n) && Delimited(a) && Delimited(b) && m + a == n + b
    ensures m == n && a == b
  {
    if |m| < |n| {
      NextUnit(m, n, a, b);
      assert false;
    } else if |n| < |m| {
      NextUnit(n, m, b, a);
      assert false;
    }
    assert m == (m + a)[..|m|] && n == (n + b)[..|n|];
    assert a == (m + a)[|m|..] && b == (n + b)[|n|..];
  }

  /** A text is the text of one value only, wherever it stands. */
  lemma {:induction false} Readable(v: Json, w: Json, a: Text, b: Text)
    requires Wf(v) && Wf(w) && Plain(v) && Plain(w) && Delimited(a) && Delimited(b)
    requires Stringify(v) + a == Stringify(w) + b
    ensures Same(v, w) && a == b
    decreases Size(v), 0
  {
    hide Quote, Body;
    FirstUnit(v, a);
    FirstUnit(w, b);
    assert Lead(v) == Lead(w);
    match v
    case Num(n) =>
      NumberReadable(n.digits, w.number.digits, a, b);
    case Str(s) =>
      QuoteInjective(s, w.text, a, b);
    case Arr(items) =>
      ArrReadable(items, w.items, a, b);
    case Obj(members) =>
      ObjReadable(members, w.members, a, b);
    case _ =>
      assert v == w;
      assert a == (Stringify(v) + a)[|Stringify(v)|..];
  }

  /** The text of an array after its opening bracket. */
  function ArrTail(items: Items): Text {
    if items.NoItems? then [CLOSE_ARRAY] else Stringify(items.first) + StringifyItems(items.rest)
  }

  lemma ArrLead(items: Items, a: Text)
    requires WfItems(items) && PlainItems(items)
    ensures Stringify(Arr(items)) + a == [OPEN_ARRAY] + (ArrTail(items) + a)
    ensures (ArrTail(items) + a)[0] == (if items.NoItems? then CLOSE_ARRAY else Lead(items.first))
    ensures items.Item? ==> Lead(items.first) != CLOSE_ARRAY
    ensures items.Item? ==> ArrTail(items) + a == Stringify(items.first) + (StringifyItems(items.rest) + a)
  {
    if items.Item? {
      FirstUnit(items.first, StringifyItems(items.rest) + a);
      assert ArrTail(items) + a == Stringify(items.first) + (StringifyItems(items.rest) + a);
    }
  }

  lemma {:induction false} ArrReadable(items: Items, others: Items, a: Text, b: Text)
    requires WfItems(items) && WfItems(others) && PlainItems(items) && PlainItems(others)
    requires Stringify(Arr(items)) + a == Stringify(Arr(others)) + b
    ensures SameItems(items, others) && a == b
    decreases ItemsSize(items), 3
  {
    ArrLead(items, a);
    ArrLead(others, b);
    hide Stringify;
    var t, z := ArrTail(items) + a, ArrTail(others) + b;
    assert ([OPEN_ARRAY] + t)[1..] == t && ([OPEN_ARRAY] + z)[1..] == z;
    if items.NoItems? {
      assert a == t[1..] && b == z[1..];
    } else {
      Readable(items.first, others.first, StringifyItems(items.rest) + a, StringifyItems(others.rest) + b);
      ItemsReadable(items.rest, others.rest, a, b);
    }
  }

  lemma {:induction false} ItemsReadable(items: Items, others: Items, a: Text, b: Text)
    requires WfItems(items) && WfItems(others) && PlainItems(items) && PlainItems(others)
    requires StringifyItems(items) + a == StringifyItems(others) + b
    ensures SameItems(items, others) && a == b
    decreases ItemsSize(items), 2
  {
    hide Stringify;
    var t := (StringifyItems(items) + a)[1..];
    assert (StringifyItems(items) + a)[0] == (StringifyItems(others) + b)[0];
    if items.NoItems? {
      assert a == t && b == t;
    } else {
      assert t == Stringify(items.first) + (StringifyItems(items.rest) + a);
      assert t == Stringify(others.first) + (StringifyItems(others.rest) + b);
      Readable(items.first, others.first, StringifyItems(items.rest) + a, StringifyItems(others.rest) + b);
      ItemsReadable(items.rest, others.rest, a, b);
    }
  }

  /** The two lists have the same keys, with the same values. */
  ghost predicate SameMembers(ms: Members, ns: Members) {
    && Keys(ms) == Keys(ns)
    && forall key :: key in Keys(ms) ==> Same(Get(ms, key), Get(ns, key))
  }

  /** The text of an object with these sorted members after its opening brace. */
  function ObjTail(x: Members): Text {
    if x.NoMembers? then [CLOSE_OBJECT]
    else Quote(x.key) + [COLON] + Stringify(x.value) + StringifyMembers(x.others)
  }

  lemma ObjLead(x: Members, a: Text)
    ensures (ObjTail(x) + a)[0] == (if x.NoMembers? then CLOSE_OBJECT else QUOTE)
    ensures x.Member? ==> ObjTail(x) + a == Quote(x.key) + ([COLON] + Stringify(x.value) + StringifyMembers(x.others) + a)
  {
    hide Stringify, Quote;
    if x.Member? {
      QuoteLead(x.key);
      Regroup(Quote(x.key), [COLON], Stringify(x.value), StringifyMembers(x.others), a);
    }
  }

  lemma Regroup(p: Text, q: Text, r: Text, s: Text, a: Text)
    ensures p + q + r + s + a == p + (q + r + s + a)
  {
  }

  lemma ObjText(ms: Members, a: Text)
    ensures Stringify(Obj(ms)) + a == [OPEN_OBJECT] + (ObjTail(Sort(ms)) + a)
  {
    hide Quote, Sort;
    assert Stringify(Obj(ms)) == [OPEN_OBJECT] + ObjTail(Sort(ms));
  }

  lemma {:induction false} ObjReadable(ms: Members, ns: Members, a: Text, b: Text)
    requires WfMembers(ms) && WfMembers(ns) && PlainMembers(ms) && PlainMembers(ns)
    requires Stringify(Obj(ms)) + a == Stringify(Obj(ns)) + b
    ensures SameMembers(ms, ns) && a == b
    decreases MembersSize(ms), 3
  {
    hide Stringify, Quote, Less, Sort, ObjTail;
    var x, y := Sort(ms), Sort(ns);
    SortSorts(ms);
    SortSorts(ns);
    SortKeeps(ms);
    SortKeeps(ns);
    ObjText(ms, a);
    ObjText(ns, b);
    var t, z := ObjTail(x) + a, ObjTail(y) + b;
    assert ([OPEN_OBJECT] + t)[1..] == t && ([OPEN_OBJECT] + z)[1..] == z;
    ListedReadable(x, y, a, b);
  }

  lemma {:induction false} ListedReadable(x: Members, y: Members, a: Text, b: Text)
    requires Sorted(x) && Sorted(y) && WfMembers(x) && WfMembers(y) && PlainMembers(x) && PlainMembers(y)
    requires ObjTail(x) + a == ObjTail(y) + b
    ensures SameMembers(x, y) && a == b
    decreases MembersSize(x), 2
  {
    hide Stringify, Quote, Less;
    ObjLead(x, a);
    ObjLead(y, b);
    if x.NoMembers? {
      assert a == (ObjTail(x) + a)[1..] && b == (ObjTail(y) + b)[1..];
    } else {
      MemberReadable(x, y, a, b);
    }
  }

  lemma QuoteLead(s: Text)
    ensures Quote(s) != [] && Quote(s)[0] == QUOTE
  {
  }

  /** One member and what follows it. */
  lemma {:induction false} MemberReadable(x: Members, y: Members, a: Text, b: Text)
    requires x.Member? && y.Member? && Sorted(x) && Sorted(y)
    requires WfMembers(x) && WfMembers(y) && PlainMembers(x) && PlainMembers(y)
    requires Quote(x.key) + ([COLON] + Stringify(x.value) + StringifyMembers(x.others) + a)
          == Quote(y.key) + ([COLON] + Stringify(y.value) + StringifyMembers(y.others) + b)
    ensures SameMembers(x, y) && a == b
    decreases MembersSize(x), 1
  {
    hide Stringify, Quote, Less;
    var p := [COLON] + Stringify(x.value) + StringifyMembers(x.others) + a;
    var q := [COLON] + Stringify(y.value) + StringifyMembers(y.others) + b;
    QuoteInjective(x.key, y.key, p, q);
    assert p[1..] == Stringify(x.value) + (StringifyMembers(x.others) + a);
    assert q[1..] == Stringify(y.value) + (StringifyMembers(y.others) + b);
    Readable(x.value, y.value, StringifyMembers(x.others) + a, StringifyMembers(y.others) + b);
    MembersReadable(x.others, y.others, a, b);
  }

  lemma {:induction false} MembersReadable(x: Members, y: Members, a: Text, b: Text)
    requires Sorted(x) && Sorted(y) && WfMembers(x) && WfMembers(y) && PlainMembers(x) && PlainMembers(y)
    requires StringifyMembers(x) + a == StringifyMembers(y) + b
    ensures SameMembers(x, y) && a == b
    decreases MembersSize(x), 2
  {
    hide Stringify, Quote, Less;
    var t := (StringifyMembers(x) + a)[1..];
    assert (StringifyMembers(x) + a)[0] == (StringifyMembers(y) + b)[0];
    if x.NoMembers? {
      assert a == t && b == t;
    } else {
      assert t == Quote(x.key) + ([COLON] + Stringify(x.value) + StringifyMembers(x.others) + a);
      assert t == Quote(y.key) + ([COLON] + Stringify(y.value) + StringifyMembers(y.others) + b);
      MemberReadable(x, y, a, b);
    }
  }

  lemma {:induction false} SortKeeps(members: Members)
    requires WfMembers(members) && PlainMembers(members)
    ensures WfMembers(Sort(members)) && PlainMembers(Sort(members))
  {
    if members.Member? {
      SortKeeps(members.others);
      SortSorts(members.others);
      InsertKeeps(members.key, members.value, Sort(members.others));
    }
  }

  lemma {:induction false} InsertKeeps(key: Text, value: Json, members: Members)
    requires WfMembers(members) && PlainMembers(members) && Wf(value) && Plain(value) && key !in Keys(members)
    ensures var r := Insert(key, value, members);
            WfMembers(r) && PlainMembers(r) && Keys(r) == Keys(members) + {key}
  {
    if members.Member? && !Less(key, members.key) {
      InsertKeeps(key, value, members.others);
    }
  }

  // ---------------------------------------------------------------------------
  // Reordering keys does not matter
  // ---------------------------------------------------------------------------

  lemma {:induction false} SamePrintsSame(v: Json, w: Json)
    requires Wf(v) && Wf(w) && Plain(v) && Plain(w) && Same(v, w)
    ensures Stringify(v) == Stringify(w)
    decreases Size(v), 0
  {
    match v
    case Arr(items) =>
      if items.Item? {
        assert Size(v) == 1 + ItemsSize(items) == 2 + Size(items.first) + ItemsSize(items.rest);
        SamePrintsSame(items.first, w.items.first);
        SameItemsPrintSame(items.rest, w.items.rest);
      }
    case Obj(members) =>
      SortSorts(members);
      SortSorts(w.members);
      SortKeeps(members);
      SortKeeps(w.members);
      var x, y := Sort(members), Sort(w.members);
      KeysEmptyIff(x);
      KeysEmptyIff(y);
      if x.Member? {
        SameHead(x, y);
        assert Same(Get(x, x.key), Get(y, x.key));
        assert Size(v) == 1 + MembersSize(x) == 2 + Size(x.value) + MembersSize(x.others);
        SamePrintsSame(x.value, y.value);
        SameTail(x, y);
        SameMembersPrintSame(x.others, y.others);
      }
    case _ =>
  }

  lemma {:induction false} SameItemsPrintSame(items: Items, others: Items)
    requires WfItems(items) && WfItems(others) && PlainItems(items) && PlainItems(others) && SameItems(items, others)
    ensures StringifyItems(items) == StringifyItems(others)
    decreases ItemsSize(items), 1
  {
    if items.Item? {
      SamePrintsSame(items.first, others.first);
      SameItemsPrintSame(items.rest, others.rest);
    }
  }

  lemma SameTail(x: Members, y: Members)
    requires x.Member? && y.Member? && Sorted(x) && Sorted(y) && SameMembers(x, y)
    ensures x.key == y.key && SameMembers(x.others, y.others)
  {
    SameHead(x, y);
    forall key | key in Keys(x.others) ensures Same(Get(x.others, key), Get(y.others, key)) {
      LessIsStrict(x.key, key);
      assert Get(x, key) == Get(x.others, key) && Get(y, key) == Get(y.others, key);
    }
  }

  lemma {:induction false} SameMembersPrintSame(x: Members, y: Members)
    requires Sorted(x) && Sorted(y) && WfMembers(x) && WfMembers(y) && PlainMembers(x) && PlainMembers(y)
    requires SameMembers(x, y)
    ensures StringifyMembers(x) == StringifyMembers(y)
    decreases MembersSize(x), 1
  {
    KeysEmptyIff(x);
    KeysEmptyIff(y);
    if x.Member? {
      SameTail(x, y);
      assert Same(Get(x, x.key), Get(y, x.key));
      SamePrintsSame(x.value, y.value);
      SameMembersPrintSame(x.others, y.others);
    }
  }

  // ---------------------------------------------------------------------------
  // Numbers that print as something else
  // ---------------------------------------------------------------------------

  lemma {:induction false} AsPrintedIsPlain(v: Json)
    requires Wf(v)
    ensures Wf(AsPrinted(v)) && Plain(AsPrinted(v)) && AsPrinted(v).Undefined? == v.Undefined?
  {
    match v
    case Arr(items) => ItemsArePlain(items);
    case Obj(members) => MembersArePlain(members);
    case _ =>
  }

  lemma {:induction false} ItemsArePlain(items: Items)
    requires WfItems(items)
    ensures WfItems(ItemsAsPrinted(items)) && PlainItems(ItemsAsPrinted(items))
  {
    if items.Item? {
      AsPrintedIsPlain(items.first);
      ItemsArePlain(items.rest);
    }
  }

  lemma {:induction false} MembersArePlain(members: Members)
    requires WfMembers(members)
    ensures WfMembers(MembersAsPrinted(members)) && PlainMembers(MembersAsPrinted(members))
  {
    if members.Member? {
      AsPrintedIsPlain(members.value);
      MembersArePlain(members.others);
    }
  }

  lemma {:induction false} InsertAsPrinted(key: Text, value: Json, members: Members)
    ensures MembersAsPrinted(Insert(key, value, members)) == Insert(key, AsPrinted(value), MembersAsPrinted(members))
  {
    if members.Member? && !Less(key, members.key) {
      InsertAsPrinted(key, value, members.others);
    }
  }

  lemma {:induction false} SortAsPrinted(members: Members)
    ensures MembersAsPrinted(Sort(members)) == Sort(MembersAsPrinted(members))
  {
    if members.Member? {
      SortAsPrinted(members.others);
      InsertAsPrinted(members.key, members.value, Sort(members.others));
    }
  }

  lemma {:induction false} PrintsAsPrinted(v: Json)
    ensures Stringify(AsPrinted(v)) == Stringify(v)
    decreases Size(v), 0
  {
    match v
    case Arr(items) =>
      if items.Item? {
        assert Size(v) == 1 + ItemsSize(items) == 2 + Size(items.first) + ItemsSize(items.rest);
        PrintsAsPrinted(items.first);
        ItemsPrintAsPrinted(items.rest);
      }
    case Obj(members) =>
      SortAsPrinted(members);
      var x := Sort(members);
      if x.Member? {
        assert Size(v) == 1 + MembersSize(x) == 2 + Size(x.value) + MembersSize(x.others);
        PrintsAsPrinted(x.value);
        MembersPrintAsPrinted(x.others);
      }
    case _ =>
  }

  lemma {:induction false} ItemsPrintAsPrinted(items: Items)
    ensures StringifyItems(ItemsAsPrinted(items)) == StringifyItems(items)
    decreases ItemsSize(items), 1
  {
    if items.Item? {
      PrintsAsPrinted(items.first);
      ItemsPrintAsPrinted(items.rest);
    }
  }

  lemma {:induction false} MembersPrintAsPrinted(members: Members)
    ensures StringifyMembers(MembersAsPrinted(members)) == StringifyMembers(members)
    decreases MembersSize(members), 1
  {
    if members.Member? {
      PrintsAsPrinted(members.value);
      MembersPrintAsPrinted(members.others);
    }
  }

  // ---------------------------------------------------------------------------
  // Main results
  // ---------------------------------------------------------------------------

  /** Canonical and injective: two values print alike exactly when they differ in key order only. */
  lemma CanonicalIff(v: Json, w: Json)
    requires Wf(v) && Wf(w) && Plain(v) && Plain(w)
    ensures Stringify(v) == Stringify(w) <==> Same(v, w)
  {
    if Stringify(v) == Stringify(w) {
      Readable(v, w, [], []);
    }
    if Same(v, w) {
      SamePrintsSame(v, w);
    }
  }

  /** For every parsed value: negative zero prints as zero, an overflowed number as null. */
  lemma PrintsAlikeIff(v: Json, w: Json)
    requires Wf(v) && Wf(w)
    ensures Stringify(v) == Stringify(w) <==> Same(AsPrinted(v), AsPrinted(w))
  {
    AsPrintedIsPlain(v);
    AsPrintedIsPlain(w);
    CanonicalIff(AsPrinted(v), AsPrinted(w));
    PrintsAsPrinted(v);
    PrintsAsPrinted(w);
  }

  /** The two collisions: values that differ by more than key order and print alike. */
  lemma OverflowPrintsAsNull()
    ensures Stringify(Num(Infinite)) == Stringify(Null) && !Same(Num(Infinite), Null)
    ensures Stringify(Num(NegativeZero)) == Stringify(Num(Finite([48]))) && !Same(Num(NegativeZero), Num(Finite([48])))
  {
  }
}
