/**
 * What canonical text looks like (proxy/client-session.ts:205-239, 259-264; sections 4 to 7 of
 * RFC 8259), spelled out: words, escapes, brackets and separators, and the names that the
 * lineage keys are made of.
 */
module CanonicalForms {
  import opened Util
  import opened CanonicalJson
  import opened Lineage

  /** The code units of ordinary text. */
  function Units(s: string): Text {
    seq(|s|, i requires 0 <= i < |s| => s[i] as int % 65536)
  }

  /** The texts with commas between them. */
  function Joined(parts: seq<Text>): Text {
    if parts == [] then []
    else if |parts| == 1 then parts[0]
    else parts[0] + Units(",") + Joined(parts[1..])
  }

  function ItemTexts(items: Items): seq<Text> {
    if items.NoItems? then [] else [Stringify(items.first)] + ItemTexts(items.rest)
  }

  function MemberTexts(members: Members): seq<Text> {
    if members.NoMembers? then []
    else [Quote(members.key) + Units(":") + Stringify(members.value)] + MemberTexts(members.others)
  }

  /** The words, and the two numbers that do not print as themselves. */
  lemma WordsAre(digits: Text)
    ensures Stringify(Null) == Units("null") && Stringify(Bool(true)) == Units("true") && Stringify(Bool(false)) == Units("false")
    ensures Stringify(Undefined) == Units("undefined")
    ensures Stringify(Num(Finite(digits))) == digits && Stringify(Num(NegativeZero)) == Units("0") && Stringify(Num(Infinite)) == Units("null")
  {
  }

  lemma JoinedMore(first: Text, rest: seq<Text>, tail: Text, close: Text)
    requires rest != [] && tail == Joined(rest) + close
    ensures first + ([COMMA] + tail) == Joined([first] + rest) + close
  {
    assert ([first] + rest)[1..] == rest && Units(",") == [COMMA];
    assert first + ([COMMA] + (Joined(rest) + close)) == (first + [COMMA] + Joined(rest)) + close;
  }

  lemma {:induction false} ItemsJoin(items: Items)
    ensures items.Item? ==> Stringify(items.first) + StringifyItems(items.rest) == Joined(ItemTexts(items)) + Units("]")
  {
    assert Units("]") == [CLOSE_ARRAY];
    if items.NoItems? {
    } else if items.rest.NoItems? {
      assert ItemTexts(items) == [Stringify(items.first)];
    } else {
      ItemsJoin(items.rest);
      var tail := Stringify(items.rest.first) + StringifyItems(items.rest.rest);
      assert StringifyItems(items.rest) == [COMMA] + tail;
      JoinedMore(Stringify(items.first), ItemTexts(items.rest), tail, Units("]"));
      hide Stringify, Joined;
    }
  }

  function MemberText(members: Members): Text
    requires members.Member?
  {
    Quote(members.key) + [COLON] + Stringify(members.value)
  }

  lemma OneMoreMember(members: Members)
    requires members.Member?
    ensures MemberTexts(members) == [MemberText(members)] + MemberTexts(members.others)
    ensures members.others.Member? ==> MemberTexts(members.others) != []
    ensures StringifyMembers(members) == [COMMA] + (MemberText(members) + StringifyMembers(members.others))
  {
    hide Stringify, Quote;
    assert Units(":") == [COLON];
  }

  lemma {:induction false} MembersJoin(members: Members)
    ensures members.Member? ==> MemberText(members) + StringifyMembers(members.others) == Joined(MemberTexts(members)) + Units("}")
  {
    hide Stringify, Quote, MemberText;
    assert Units("}") == [CLOSE_OBJECT];
    if members.NoMembers? {
    } else if members.others.NoMembers? {
      OneMoreMember(members);
      assert MemberTexts(members) == [MemberText(members)];
    } else {
      MembersJoin(members.others);
      OneMoreMember(members);
      OneMoreMember(members.others);
      hide StringifyMembers, MemberTexts, Joined;
      JoinedMore(MemberText(members), MemberTexts(members.others), MemberText(members.others) + StringifyMembers(members.others.others), Units("}"));
    }
  }

  /** An array is its items, joined with commas, in brackets; an object its members, by key, in braces. */
  lemma BracketsAre(items: Items, members: Members)
    ensures Stringify(Arr(items)) == Units("[") + Joined(ItemTexts(items)) + Units("]")
    ensures Stringify(Obj(members)) == Units("{") + Joined(MemberTexts(Sort(members))) + Units("}")
  {
    ItemsJoin(items);
    MembersJoin(Sort(members));
    hide Quote, Sort;
    assert Units("[") == [OPEN_ARRAY] && Units("]") == [CLOSE_ARRAY] && Units("{") == [OPEN_OBJECT] && Units("}") == [CLOSE_OBJECT];
    assert Units("[") + Joined([]) + Units("]") == [OPEN_ARRAY] + [CLOSE_ARRAY];
    assert Units("{") + Joined([]) + Units("}") == [OPEN_OBJECT] + [CLOSE_OBJECT];
  }

  /** A unit that JSON text may hold as it is. */
  predicate IsPlain(u: Unit) {
    u >= 32 && u != 34 && u != 92 && !(0xd800 <= u < 0xe000)
  }

  lemma {:induction false} PlainBody(s: Text)
    requires forall i :: 0 <= i < |s| ==> IsPlain(s[i])
    ensures Body(s) == s
  {
    if s == [] {
    } else {
      PlainBody(s[1..]);
      assert s == [s[0]] + s[1..];
    }
  }

  /** Plain text stands between quotes as it is. */
  lemma PlainIsQuoted(s: Text)
    requires forall i :: 0 <= i < |s| ==> IsPlain(s[i])
    ensures Quote(s) == [34] + s + [34]
  {
    PlainBody(s);
  }

  /** The letters of the short escapes. */
  lemma ShortEscapesAre()
    ensures Escape(8) == Units("\\b") && Escape(9) == Units("\\t") && Escape(10) == Units("\\n") && Escape(12) == Units("\\f")
    ensures Escape(13) == Units("\\r") && Escape(34) == Units("\\\"") && Escape(92) == Units("\\\\")
  {
  }

  /** A lower-case hexadecimal digit. */
  predicate IsHex(u: Unit, value: nat) {
    (value < 10 && u == '0' as int + value) || (10 <= value < 16 && u == 'a' as int + value - 10)
  }

  /** Every other control character and lone surrogate is its four hexadecimal digits. */
  lemma EscapesAre(u: Unit)
    requires (u < 32 && u !in {8, 9, 10, 12, 13}) || 0xd800 <= u < 0xe000
    ensures var text := Escape(u);
            && |text| == 6 && text[0] == '\\' as int && text[1] == 'u' as int
            && IsHex(text[2], u / 4096) && IsHex(text[3], u / 256 % 16) && IsHex(text[4], u / 16 % 16) && IsHex(text[5], u % 16)
  {
    assert Escape(u) == [BACKSLASH, 117] + Hex4(u);
    HexIsLower(u / 4096);
    HexIsLower(u / 256 % 16);
    HexIsLower(u / 16 % 16);
    HexIsLower(u % 16);
    hide HexDigit, IsHex;
  }

  lemma HexIsLower(d: nat)
    requires d < 16
    ensures IsHex(HexDigit(d), d)
  {
  }

  /** A surrogate pair stands as it is, and what follows it is printed on. */
  lemma PairsStand(high: Unit, low: Unit, rest: Text)
    requires 0xd800 <= high < 0xdc00 <= low < 0xe000
    ensures Body([high, low] + rest) == [high, low] + Body(rest)
  {
    assert ([high, low] + rest)[2..] == rest && ([high, low] + rest)[..2] == [high, low];
  }

  lemma UnitsAre(s: string, text: Text)
    requires |s| == |text| && forall i :: 0 <= i < |s| ==> s[i] as int == text[i]
    ensures text == Units(s)
  {
  }

  /** The names the keys are made of. */
  lemma NamesAre()
    ensures FORMAT == Units("format") && MODEL == Units("model") && SYSTEM == Units("system") && DEVELOPER == Units("developer")
    ensures TOOLS == Units("tools") && TOOL_CHOICE == Units("tool_choice") && MESSAGES == Units("messages") && ROLE == Units("role")
  {
    hide Units;
    UnitsAre("format", FORMAT);
    UnitsAre("model", MODEL);
    UnitsAre("system", SYSTEM);
    UnitsAre("developer", DEVELOPER);
    UnitsAre("tools", TOOLS);
    UnitsAre("tool_choice", TOOL_CHOICE);
    UnitsAre("messages", MESSAGES);
    UnitsAre("role", ROLE);
  }

  /** A message is the developer's exactly if it is an object whose role is that word. */
  lemma DeveloperIff(m: Json)
    ensures IsDeveloper(m) <==> m.Obj? && Units("role") in Keys(m.members) && Get(m.members, Units("role")) == Str(Units("developer"))
  {
    NamesAre();
  }

  /** The developer's messages, read from the first on. */
  function FromDeveloper(messages: seq<Json>): seq<Json> {
    if messages == [] then []
    else (if IsDeveloper(messages[0]) then [messages[0]] else []) + FromDeveloper(messages[1..])
  }

  lemma {:induction false} FromDeveloperSnoc(messages: seq<Json>, last: Json)
    ensures FromDeveloper(messages + [last]) == FromDeveloper(messages) + (if IsDeveloper(last) then [last] else [])
  {
    hide IsDeveloper;
    if messages == [] {
      assert [last][1..] == [] && messages + [last] == [last];
    } else {
      assert (messages + [last])[1..] == messages[1..] + [last] && (messages + [last])[0] == messages[0];
      FromDeveloperSnoc(messages[1..], last);
      var first := if IsDeveloper(messages[0]) then [messages[0]] else [];
      var more := if IsDeveloper(last) then [last] else [];
      assert first + (FromDeveloper(messages[1..]) + more) == first + FromDeveloper(messages[1..]) + more;
    }
  }

  lemma {:induction false} DevelopersAre(messages: seq<Json>)
    ensures Developers(messages) == FromDeveloper(messages)
  {
    hide IsDeveloper;
    if messages == [] {
    } else {
      DevelopersAre(messages[..|messages| - 1]);
      FromDeveloperSnoc(messages[..|messages| - 1], messages[|messages| - 1]);
      assert messages[..|messages| - 1] + [messages[|messages| - 1]] == messages;
    }
  }
}
