/** Printing JSON and parsing it again. */
module JsonPrint {
  import opened Dynstr
  import EnvList
  import opened Json
  import opened JsonParser
  import opened Numerals

  datatype Tree = JString(text: string) | JInt(number: int) | JBool(value: bool) | JNull
    | JObject(members: MemberList) | JArray(items: ItemList)

  datatype MemberList = NoMembers | Member(key: string, value: Tree, rest: MemberList)

  datatype ItemList = NoItems | Item(value: Tree, rest: ItemList)

  // ---- the printer: everything is printed in front of a text ----

  /** Quotes and backslashes are escaped. */
  function EscapedTo(s: string, post: string): string {
    if s == "" then post
    else if s[0] == '"' || s[0] == '\\' then ['\\', s[0]] + EscapedTo(s[1..], post)
    else [s[0]] + EscapedTo(s[1..], post)
  }

  function IntText(n: int): string {
    if n < 0 then "-" + Text(-n, 10) else Text(n, 10)
  }

  function PrintTo(j: Tree, post: string): string {
    match j
    case JString(text) => "\"" + EscapedTo(text, "\"" + post)
    case JInt(n) => IntText(n) + post
    case JBool(b) => (if b then "true" else "false") + post
    case JNull => "null" + post
    case JObject(NoMembers) => "{}" + post
    case JObject(members) => "{\"" + MembersTo(members, post)
    case JArray(NoItems) => "[]" + post
    case JArray(items) => "[" + ItemsTo(items, post)
  }

  /** Members after an opening quote, up to the closing brace */
  function MembersTo(members: MemberList, post: string): string {
    match members
    case NoMembers => post
    case Member(key, value, NoMembers) => EscapedTo(key, "\":" + PrintTo(value, "}" + post))
    case Member(key, value, rest) => EscapedTo(key, "\":" + PrintTo(value, ",\"" + MembersTo(rest, post)))
  }

  /** Items up to the closing bracket */
  function ItemsTo(items: ItemList, post: string): string {
    match items
    case NoItems => post
    case Item(value, NoItems) => PrintTo(value, "]" + post)
    case Item(value, rest) => PrintTo(value, "," + ItemsTo(rest, post))
  }

  // ---- what a tree is as a name-value list ----

  function ToNv(j: Tree): Nv {
    match j
    case JString(text) => NvString(text)
    case JInt(n) => NvInt(n)
    case JBool(b) => NvBool(b)
    case JNull => NvNull
    case JObject(members) => NvList(WithMembers(map[], members))
    case JArray(items) => Decorated(WithItems(map[], items, 0), Length(items))
  }

  function WithMembers(m: map<string, Nv>, members: MemberList): map<string, Nv>
    decreases members
  {
    match members
    case NoMembers => m
    case Member(key, value, rest) => WithMembers(m[key := ToNv(value)], rest)
  }

  function WithItems(m: map<string, Nv>, items: ItemList, i: nat): map<string, Nv>
    decreases items
  {
    match items
    case NoItems => m
    case Item(value, rest) => WithItems(m[IndexKey(i) := ToNv(value)], rest, i + 1)
  }

  function Length(items: ItemList): nat {
    match items
    case NoItems => 0
    case Item(_, rest) => 1 + Length(rest)
  }

  // ---- which trees survive ----

  predicate IsInt32(n: int) {
    -0x8000_0000 <= n < 0x8000_0000
  }

  /** Strings without NULs and 32-bit integers */
  predicate Printable(j: Tree) {
    match j
    case JString(text) => NulFree(text)
    case JInt(n) => IsInt32(n)
    case JBool(_) => true
    case JNull => true
    case JObject(members) => PrintableMembers(members)
    case JArray(items) => PrintableItems(items)
  }

  predicate PrintableMembers(members: MemberList) {
    match members
    case NoMembers => true
    case Member(key, value, rest) => NulFree(key) && Printable(value) && PrintableMembers(rest)
  }

  predicate PrintableItems(items: ItemList) {
    match items
    case NoItems => true
    case Item(value, rest) => Printable(value) && PrintableItems(rest)
  }

  // ---- reading back ----

  /** A printed string reads back exactly when it holds no NUL. */
  lemma {:induction false} CharactersRoundTrip(s: string, post: string)
    ensures NulFree(s) ==> Characters(EscapedTo(s, "\"" + post)) == Good(s, post)
    ensures Characters(EscapedTo(s, "\"" + post)) == Good(s, post) ==> NulFree(s)
  {
    var e := EscapedTo(s, "\"" + post);
    if s == "" {
      assert e[1..] == post;
    } else {
      var r := EscapedTo(s[1..], "\"" + post);
      CharactersRoundTrip(s[1..], post);
      assert s == [s[0]] + s[1..];
      if s[0] == '"' || s[0] == '\\' {
        assert e[1..][1..] == r;
      } else {
        assert e[1..] == r;
      }
    }
  }

  lemma {:induction false} NoNulToCut(s: string)
    requires NulFree(s)
    ensures UpToNul(s) == s
  {
    if s != "" {
      NoNulToCut(s[1..]);
      assert s == [s[0]] + s[1..];
    }
  }

  lemma {:induction false} DigitsStop(d: string, post: string)
    requires (forall i :: 0 <= i < |d| ==> IsDecimal(d[i])) && !IsDecimal(Head(post))
    ensures DigitPrefix(d + post) == d
  {
    if d == "" {
      assert d + post == post;
    } else {
      assert (d + post)[1..] == d[1..] + post && d == [d[0]] + d[1..];
      DigitsStop(d[1..], post);
    }
  }

  lemma TextIsDecimal(n: nat)
    ensures Text(n, 10) != "" && forall i :: 0 <= i < |Text(n, 10)| ==> IsDecimal(Text(n, 10)[i])
    ensures ReadDigits(Text(n, 10), 10, 0).0 == n
  {
    TextIsDigits(n, 10);
    TextReads(n, 10, "");
    assert Text(n, 10) + "" == Text(n, 10);
    forall i | 0 <= i < |Text(n, 10)| ensures IsDecimal(Text(n, 10)[i]) {
      assert IsDigit(Text(n, 10)[i], 10);
    }
  }

  /** What may stand behind a value */
  predicate Ends(post: string) {
    Head(post) == ',' || Head(post) == ']' || Head(post) == '}'
  }

  lemma UnsignedReads(n: nat, post: string)
    requires Ends(post)
    ensures var s := Text(n, 10) + post;
            s != "" && IsDecimal(s[0]) && DigitPrefix(s) == Text(n, 10) && s[|Text(n, 10)|..] == post
  {
    TextIsDecimal(n);
    DigitsStop(Text(n, 10), post);
  }

  /** The digits of k, with or without a minus sign, as the parser reads them */
  lemma DigitsRead(k: nat, negative: bool, post: string)
    requires Ends(post)
    ensures Json.Number((if negative then "-" + Text(k, 10) else Text(k, 10)) + post)
         == Done(NvInt(if negative then Wrap32(-Wrap32(k)) else Wrap32(k)), post)
  {
    var u := Text(k, 10) + post;
    UnsignedReads(k, post);
    TextIsDecimal(k);
    assert ("-" + Text(k, 10)) + post == "-" + u;
    assert ("-" + u)[1..] == u;
    hide Text, DigitPrefix, ReadDigits, Wrap32;
  }

  lemma WrapKeeps(k: int)
    requires k >= 0
    ensures Wrap32(k) == k <==> k < 0x8000_0000
    ensures Wrap32(-Wrap32(k)) == -k <==> k <= 0x8000_0000
  {
  }

  /** A printed integer reads back exactly when it fits 32 bits. */
  lemma NumberRoundTrip(n: int, post: string)
    requires Ends(post)
    ensures Json.Number(IntText(n) + post) == Done(NvInt(n), post) <==> IsInt32(n)
  {
    hide Json.Number, Wrap32, Text;
    DigitsRead(if n < 0 then -n else n, n < 0, post);
    WrapKeeps(if n < 0 then -n else n);
  }

  lemma WordReads(w: string, post: string)
    requires Ends(post) && (w == "true" || w == "false" || w == "null")
    ensures LowerPrefix(w + post) == w && (w + post)[|w|..] == post
  {
    LettersStop(w, post);
  }

  lemma {:induction false} LettersStop(w: string, post: string)
    requires (forall i :: 0 <= i < |w| ==> IsLower(w[i])) && !IsLower(Head(post))
    ensures LowerPrefix(w + post) == w
  {
    if w == "" {
      assert w + post == post;
    } else {
      assert (w + post)[1..] == w[1..] + post && w == [w[0]] + w[1..];
      LettersStop(w[1..], post);
    }
  }

  /** A value that begins with something other than a blank is read from there. */
  lemma NoBlanks(s: string)
    requires s != "" && !IsBlank(s[0])
    ensures SkipBlanks(s) == s
  {
  }

  /** Every printed value is read back, in front of what may follow a value. */
  lemma {:induction false} ValueReads(j: Tree, post: string)
    requires Printable(j) && Ends(post)
    ensures Value(PrintTo(j, post)) == Done(ToNv(j), post)
    decreases j, 1
  {
    match j
    case JString(text) => StringReads(text, post);
    case JInt(n) => IntReads(n, post);
    case JBool(b) => WordValue(if b then "true" else "false", post);
    case JNull => WordValue("null", post);
    case JObject(members) => ObjectReads(members, post);
    case JArray(items) => ArrayReads(items, post);
  }

  lemma StringReads(text: string, post: string)
    requires NulFree(text)
    ensures Value(PrintTo(JString(text), post)) == Done(NvString(text), post)
  {
    var s := PrintTo(JString(text), post);
    NoBlanks(s);
    assert s[1..] == EscapedTo(text, "\"" + post);
    CharactersRoundTrip(text, post);
    NoNulToCut(text);
    hide EscapedTo, Characters;
  }

  lemma IntReads(n: int, post: string)
    requires IsInt32(n) && Ends(post)
    ensures Value(PrintTo(JInt(n), post)) == Done(NvInt(n), post)
  {
    hide IntText, Json.Number, Json.Members, Json.Elements, Json.Characters;
    var s := IntText(n) + post;
    IntStarts(n);
    assert s[0] == IntText(n)[0];
    NoBlanks(s);
    NumberRoundTrip(n, post);
  }

  lemma IntStarts(n: int)
    ensures IntText(n) != [] && (IntText(n)[0] == '-' || IsDecimal(IntText(n)[0]))
  {
    TextIsDecimal(if n < 0 then -n else n);
  }

  lemma WordValue(w: string, post: string)
    requires Ends(post) && (w == "true" || w == "false" || w == "null")
    ensures Value(w + post) == Done(if w == "null" then NvNull else NvBool(w == "true"), post)
  {
    WordReads(w, post);
    NoBlanks(w + post);
    hide LowerPrefix;
  }

  lemma {:induction false} ObjectReads(members: MemberList, post: string)
    requires PrintableMembers(members)
    ensures Value(PrintTo(JObject(members), post)) == Done(ToNv(JObject(members)), post)
    ensures Root(PrintTo(JObject(members), post)) == Done(ToNv(JObject(members)), post)
    decreases members, 1
  {
    var s := PrintTo(JObject(members), post);
    NoBlanks(s);
    NoBlanks(s[1..]);
    if members.Member? {
      hide MembersTo, Members;
      MembersRead(members, map[], post);
      assert s[1..][1..] == MembersTo(members, post);
    } else {
      assert s[1..][1..] == post;
    }
  }

  lemma {:induction false} MembersRead(members: MemberList, m: map<string, Nv>, post: string)
    requires members.Member? && PrintableMembers(members)
    ensures Members(MembersTo(members, post), m) == Done(NvList(WithMembers(m, members)), post)
    decreases members, 0
  {
    var key, value, rest := members.key, members.value, members.rest;
    var end := if rest.NoMembers? then "}" + post else ",\"" + MembersTo(rest, post);
    var printed := PrintTo(value, end);
    var after := ":" + printed;
    assert "\"" + after == "\":" + printed;
    CharactersRoundTrip(key, after);
    NoNulToCut(key);
    ValueReads(value, end);
    KeyReads(printed, m, key, ToNv(value), end);
    if rest.NoMembers? {
      MemberEnds(m[key := ToNv(value)], post);
    } else {
      MembersRead(rest, m[key := ToNv(value)], post);
      MemberGoesOn(m[key := ToNv(value)], MembersTo(rest, post));
    }
    hide Characters, AfterKey, AfterMember, PrintTo, EscapedTo, UpToNul;
  }

  lemma KeyReads(printed: string, m: map<string, Nv>, key: string, v: Nv, end: string)
    requires Value(printed) == Done(v, end)
    ensures AfterKey(":" + printed, m, key) == AfterMember(end, m[key := v])
  {
    NoBlanks(":" + printed);
    assert (":" + printed)[1..] == printed;
    hide Value, AfterMember;
  }

  lemma MemberEnds(m: map<string, Nv>, post: string)
    ensures AfterMember("}" + post, m) == Done(NvList(m), post)
  {
    NoBlanks("}" + post);
    assert ("}" + post)[1..] == post;
  }

  lemma MemberGoesOn(m: map<string, Nv>, s: string)
    ensures AfterMember(",\"" + s, m) == Members(s, m)
  {
    var t := ",\"" + s;
    NoBlanks(t);
    NoBlanks(t[1..]);
    assert t[1..][1..] == s;
    hide Members;
  }

  lemma {:induction false} ArrayReads(items: ItemList, post: string)
    requires PrintableItems(items)
    ensures Value(PrintTo(JArray(items), post)) == Done(ToNv(JArray(items)), post)
    ensures Root(PrintTo(JArray(items), post)) == Done(ToNv(JArray(items)), post)
    decreases items, 1
  {
    var s := PrintTo(JArray(items), post);
    NoBlanks(s);
    hide WithItems, Decoration, Length;
    if items.Item? {
      hide ItemsTo, Elements;
      ItemsStart(items, post);
      assert s[1..] == ItemsTo(items, post);
      NoBlanks(s[1..]);
      ItemsRead(items, map[], 0, post);
    } else {
      NoBlanks(s[1..]);
      assert s[1..][1..] == post;
    }
  }

  /** An item begins with something other than a blank or the closing bracket. */
  lemma {:induction false} ItemsStart(items: ItemList, post: string)
    requires items.Item?
    ensures var s := ItemsTo(items, post); s != "" && !IsBlank(s[0]) && s[0] != ']'
  {
    match items.value
    case JInt(n) => TextIsDecimal(if n < 0 then -n else n);
    case _ =>
  }

  lemma {:induction false} ItemsRead(items: ItemList, m: map<string, Nv>, i: nat, post: string)
    requires items.Item? && PrintableItems(items)
    ensures Elements(ItemsTo(items, post), m, i) == Done(Decorated(WithItems(m, items, i), i + Length(items)), post)
    decreases items, 0
  {
    hide Value, AfterElement, PrintTo, IndexKey, Decorated, ToNv, Members;
    var value, rest := items.value, items.rest;
    var end := if rest.NoItems? then "]" + post else "," + ItemsTo(rest, post);
    var m' := m[IndexKey(i) := ToNv(value)];
    ValueReads(value, end);
    if rest.NoItems? {
      ItemEnds(m', i + 1, post);
    } else {
      ItemsRead(rest, m', i + 1, post);
      ItemGoesOn(m', i + 1, ItemsTo(rest, post));
    }
  }

  lemma ItemEnds(m: map<string, Nv>, i: nat, post: string)
    ensures AfterElement("]" + post, m, i) == Done(Decorated(m, i), post)
  {
    NoBlanks("]" + post);
    assert ("]" + post)[1..] == post;
  }

  lemma ItemGoesOn(m: map<string, Nv>, i: nat, s: string)
    ensures AfterElement("," + s, m, i) == Elements(s, m, i)
  {
    NoBlanks("," + s);
    assert ("," + s)[1..] == s;
    hide Elements;
  }

  /** Printing a root and parsing it gives its tree back, whatever follows. */
  lemma RoundTrip(j: Tree, post: string)
    requires Printable(j) && (j.JObject? || j.JArray?)
    ensures Root(PrintTo(j, post)) == Done(ToNv(j), post)
  {
    match j
    case JObject(members) => ObjectReads(members, post);
    case JArray(items) => ArrayReads(items, post);
  }

  // ---- arrays as lists ----

  function Nth(items: ItemList, i: nat): Tree
    requires i < Length(items)
  {
    if i == 0 then items.value else Nth(items.rest, i - 1)
  }

  lemma IndexKeysDiffer(i: nat, j: nat)
    ensures IndexKey(i) == IndexKey(j) ==> i == j
    ensures IndexKey(i) != "length" && IndexKey(i) != MARKER_ARRAY
  {
    TextIsDecimal(i);
    TextIsDecimal(j);
    assert "length"[0] == 'l' && MARKER_ARRAY[0] == '.';
    assert IsDecimal(IndexKey(i)[0]);
  }

  lemma {:induction false} ItemsAreKept(m: map<string, Nv>, items: ItemList, from: nat, k: string)
    requires forall i :: from <= i < from + Length(items) ==> k != IndexKey(i)
    ensures (k in WithItems(m, items, from) <==> k in m) && (k in m ==> WithItems(m, items, from)[k] == m[k])
    decreases items
  {
    if items.Item? {
      assert k != IndexKey(from);
      ItemsAreKept(m[IndexKey(from) := ToNv(items.value)], items.rest, from + 1, k);
    }
  }

  lemma {:induction false} ItemsAreIndexed(m: map<string, Nv>, items: ItemList, from: nat, i: nat)
    requires i < Length(items)
    ensures var e := WithItems(m, items, from); IndexKey(from + i) in e && e[IndexKey(from + i)] == ToNv(Nth(items, i))
    decreases items
  {
    hide IndexKey, ToNv;
    var m' := m[IndexKey(from) := ToNv(items.value)];
    if i == 0 {
      forall j | from + 1 <= j < from + 1 + Length(items.rest) ensures IndexKey(from) != IndexKey(j) {
        IndexKeysDiffer(from, j);
      }
      ItemsAreKept(m', items.rest, from + 1, IndexKey(from));
    } else {
      ItemsAreIndexed(m', items.rest, from + 1, i - 1);
    }
  }

  /** An array is marked, carries its length, and holds each item under its index. */
  lemma ArrayIsIndexed(items: ItemList, i: nat)
    ensures var e := ToNv(JArray(items)).entries;
            && MARKER_ARRAY in e && e[MARKER_ARRAY] == NvNull
            && "length" in e && e["length"] == NvUint(Length(items))
            && (i < Length(items) ==> IndexKey(i) in e && e[IndexKey(i)] == ToNv(Nth(items, i)))
            && (i >= Length(items) ==> IndexKey(i) !in e)
  {
    IndexKeysDiffer(i, i);
    assert MARKER_ARRAY[0] != "length"[0];
    if i < Length(items) {
      ItemsAreIndexed(map[], items, 0, i);
    } else {
      forall j | 0 <= j < Length(items) ensures IndexKey(i) != IndexKey(j) {
        IndexKeysDiffer(i, j);
      }
      ItemsAreKept(map[], items, 0, IndexKey(i));
    }
  }

  // ---- an environment array as JSON ----

  function StringItems(texts: seq<string>): ItemList {
    if texts == [] then NoItems else Item(JString(texts[0]), StringItems(texts[1..]))
  }

  lemma {:induction false} StringItemsAre(texts: seq<string>)
    requires forall i :: 0 <= i < |texts| ==> NulFree(texts[i])
    ensures Length(StringItems(texts)) == |texts| && PrintableItems(StringItems(texts))
    ensures forall i :: 0 <= i < |texts| ==> Nth(StringItems(texts), i) == JString(texts[i])
  {
    if texts != [] {
      StringItemsAre(texts[1..]);
    }
  }

  lemma ArrayOf(nvl: map<string, Nv>, texts: seq<string>)
    requires "length" in nvl && nvl["length"] == NvUint(|texts|)
    requires forall i :: 0 <= i < |texts| ==> EnvList.HasString(nvl, i) && nvl[IndexKey(i)].text == texts[i]
    ensures EnvList.IsStringArray(nvl) && EnvList.ArrayStrings(nvl) == texts
  {
    hide IndexKey;
  }

  lemma StringItem(texts: seq<string>, i: nat)
    requires i < |texts| && (forall k :: 0 <= k < |texts| ==> NulFree(texts[k]))
    ensures var nvl := ToNv(JArray(StringItems(texts))).entries;
            EnvList.HasString(nvl, i) && nvl[IndexKey(i)].text == texts[i]
  {
    StringItemsAre(texts);
    ArrayIsIndexed(StringItems(texts), i);
    assert Nth(StringItems(texts), i) == JString(texts[i]);
    hide IndexKey, WithItems;
  }

  /** A printed array of strings, parsed and read index by index, is those strings in order. */
  lemma StringArrayRoundTrip(texts: seq<string>)
    requires forall i :: 0 <= i < |texts| ==> NulFree(texts[i])
    ensures var r := Root(PrintTo(JArray(StringItems(texts)), ""));
            && r.Done? && r.value.NvList?
            && EnvList.IsStringArray(r.value.entries) && EnvList.ArrayStrings(r.value.entries) == texts
  {
    hide PrintTo, WithItems, IndexKey, StringItems, Root;
    var items := StringItems(texts);
    StringItemsAre(texts);
    RoundTrip(JArray(items), "");
    ArrayIsIndexed(items, 0);
    var nvl := ToNv(JArray(items)).entries;
    forall i | 0 <= i < |texts| ensures EnvList.HasString(nvl, i) && nvl[IndexKey(i)].text == texts[i] {
      StringItem(texts, i);
    }
    ArrayOf(nvl, texts);
  }
}
