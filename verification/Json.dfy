/** JSON values, the text the writer gives them, and a reader for texts after sections 2 to 7 of RFC 8259. */
module Json {

  datatype Json = Prim(text: string) | Str(text: string) | Arr(items: seq<Json>) | Obj(members: seq<Member>)

  datatype Member = Member(key: string, val: Json)

  datatype Option<T> = None | Some(value: T)

  // ---------------------------------------------------------------- writing

  /** The writer's counters are 32 bits wide; it puts a comma in front of element i unless its counter shows zero. */
  const WRAP := 0x1_0000_0000

  function Comma(i: nat): string { if i % WRAP != 0 then "," else "" }

  /** Texts pass through a buffer of 256 characters, one of them the terminating zero. */
  const TEXT_MAX := 255

  function Cut(s: string): (r: string)
    ensures |r| <= |s| && (r == s <==> |s| <= TEXT_MAX)
    ensures |r| == |s| ==> r == s
  {
    if |s| <= TEXT_MAX then s else s[..TEXT_MAX]
  }

  function Quoted(s: string): string { "\"" + s + "\"" }

  /** The text the writer produces for a value. */
  function Written(t: Json): string
    decreases t, 1
  {
    match t
    case Prim(text) => Cut(text)
    case Str(text) => Quoted(Cut(text))
    case Arr(items) => "[" + WrittenItems(items) + "]"
    case Obj(members) => "{" + WrittenMembers(members) + "}"
  }

  function WrittenItems(items: seq<Json>): string
    decreases items, 0
  {
    if items == [] then ""
    else
      var k := |items| - 1;
      WrittenItems(items[..k]) + Comma(k) + Written(items[k])
  }

  function WrittenMember(m: Member): string
    decreases m, 0
  {
    Quoted(Cut(m.key)) + ":" + Written(m.val)
  }

  function WrittenMembers(members: seq<Member>): string
    decreases members, 0
  {
    if members == [] then ""
    else
      var k := |members| - 1;
      WrittenMembers(members[..k]) + Comma(k) + WrittenMember(members[k])
  }

  /** The same text with every separator in place and nothing cut. */
  function Full(t: Json): string
    decreases t, 1
  {
    match t
    case Prim(text) => text
    case Str(text) => Quoted(text)
    case Arr(items) => "[" + FullItems(items) + "]"
    case Obj(members) => "{" + FullMembers(members) + "}"
  }

  function FullItems(items: seq<Json>): string
    decreases items, 0
  {
    if items == [] then ""
    else if |items| == 1 then Full(items[0])
    else Full(items[0]) + "," + FullItems(items[1..])
  }

  function FullMember(m: Member): string
    decreases m, 0
  {
    Quoted(m.key) + ":" + Full(m.val)
  }

  function FullMembers(members: seq<Member>): string
    decreases members, 0
  {
    if members == [] then ""
    else if |members| == 1 then FullMember(members[0])
    else FullMember(members[0]) + "," + FullMembers(members[1..])
  }

  // ---------------------------------------------------------------- characters and tokens

  /** A character that stands for itself inside a string. */
  predicate PlainChar(c: char) { c != '"' && c != '\\' && c >= ' ' }

  predicate Space(c: char) { c == ' ' || c == '\t' || c == '\n' || c == '\r' }

  predicate Digit(c: char) { '0' <= c <= '9' }

  /** A character of a literal name or a number. */
  predicate TokenChar(c: char) { Digit(c) || 'a' <= c <= 'z' || c == 'E' || c == '+' || c == '-' || c == '.' }

  /** The end of the digits that start at i. */
  function DigitsEnd(x: string, i: nat): (j: nat)
    requires i <= |x|
    ensures i <= j <= |x| && (j < |x| ==> !Digit(x[j]))
    decreases |x| - i
  {
    if i < |x| && Digit(x[i]) then DigitsEnd(x, i + 1) else i
  }

  /** An optional exponent part from i to the end: section 6 of RFC 8259. */
  predicate ExponentFrom(x: string, i: nat)
    requires i <= |x|
  {
    i == |x| ||
    (&& (x[i] == 'e' || x[i] == 'E')
     && var j := if i + 1 < |x| && (x[i + 1] == '+' || x[i + 1] == '-') then i + 2 else i + 1;
        j < |x| && DigitsEnd(x, j) == |x|)
  }

  /** An optional fraction part, then an optional exponent part, from i to the end. */
  predicate FractionFrom(x: string, i: nat)
    requires i <= |x|
  {
    if i < |x| && x[i] == '.' then
      var j := DigitsEnd(x, i + 1);
      j > i + 1 && ExponentFrom(x, j)
    else ExponentFrom(x, i)
  }

  /** minus? int frac? exp? with no leading zeros. */
  predicate IsNumber(x: string) {
    var i := if x != [] && x[0] == '-' then 1 else 0;
    i < |x| && Digit(x[i]) &&
    if x[i] == '0' then FractionFrom(x, i + 1) else FractionFrom(x, DigitsEnd(x, i))
  }

  /** A literal name or a number. */
  predicate IsPrimitive(x: string) {
    x != [] && (forall c | c in x :: TokenChar(c)) && (x == "true" || x == "false" || x == "null" || IsNumber(x))
  }

  // ---------------------------------------------------------------- reading

  function SkipSpace(s: string, i: nat): (j: nat)
    requires i <= |s|
    ensures i <= j <= |s|
    decreases |s| - i
  {
    if i < |s| && Space(s[i]) then SkipSpace(s, i + 1) else i
  }

  function TokenEnd(s: string, i: nat): (j: nat)
    requires i <= |s|
    ensures i <= j <= |s|
    decreases |s| - i
  {
    if i < |s| && TokenChar(s[i]) then TokenEnd(s, i + 1) else i
  }

  function HexDigit(c: char): Option<nat> {
    if '0' <= c <= '9' then Some(c as nat - '0' as nat)
    else if 'a' <= c <= 'f' then Some(c as nat - 'a' as nat + 10)
    else if 'A' <= c <= 'F' then Some(c as nat - 'A' as nat + 10)
    else None
  }

  /** The character an escape at i stands for and the position behind it. Surrogates are not combined. */
  function Escape(s: string, i: nat): (r: Option<(char, nat)>)
    requires i <= |s|
    ensures r.Some? ==> i < r.value.1 <= |s|
  {
    if i == |s| then None
    else match s[i]
      case '"' => Some(('"', i + 1))
      case '\\' => Some(('\\', i + 1))
      case '/' => Some(('/', i + 1))
      case 'b' => Some((8 as char, i + 1))
      case 'f' => Some((12 as char, i + 1))
      case 'n' => Some(('\n', i + 1))
      case 'r' => Some(('\r', i + 1))
      case 't' => Some(('\t', i + 1))
      case 'u' => if i + 5 <= |s| then UnicodeEscape(s, i) else None
      case _ => None
  }

  function UnicodeEscape(s: string, i: nat): (r: Option<(char, nat)>)
    requires i + 5 <= |s|
    ensures r.Some? ==> r.value.1 == i + 5
  {
    match (HexDigit(s[i + 1]), HexDigit(s[i + 2]), HexDigit(s[i + 3]), HexDigit(s[i + 4]))
    case (Some(a), Some(b), Some(c), Some(d)) =>
      var v := ((a * 16 + b) * 16 + c) * 16 + d;
      if v < 0xD800 || 0xE000 <= v < 0x10000 then Some((v as char, i + 5)) else None
    case _ => None
  }

  /** The characters of a string from i up to its closing quote, and the position behind the quote. */
  function ReadChars(s: string, i: nat): (r: Option<(string, nat)>)
    requires i <= |s|
    ensures r.Some? ==> i < r.value.1 <= |s|
    decreases |s| - i
  {
    if i == |s| then None
    else if s[i] == '"' then Some(([], i + 1))
    else if s[i] == '\\' then
      match Escape(s, i + 1)
      case None => None
      case Some((c, j)) =>
        match ReadChars(s, j)
        case None => None
        case Some((cs, k)) => Some(([c] + cs, k))
    else if PlainChar(s[i]) then
      match ReadChars(s, i + 1)
      case None => None
      case Some((cs, k)) => Some(([s[i]] + cs, k))
    else None
  }

  /** A value at i, and the position behind it. */
  function ReadValue(s: string, i: nat): (r: Option<(Json, nat)>)
    requires i <= |s|
    ensures r.Some? ==> i < r.value.1 <= |s|
    decreases |s| - i, 1
  {
    var a := SkipSpace(s, i);
    if a == |s| then None
    else if s[a] == '"' then
      match ReadChars(s, a + 1)
      case None => None
      case Some((cs, j)) => Some((Str(cs), j))
    else if s[a] == '[' then
      var b := SkipSpace(s, a + 1);
      if b < |s| && s[b] == ']' then Some((Arr([]), b + 1))
      else
        match ReadItems(s, a + 1)
        case None => None
        case Some((items, j)) => Some((Arr(items), j))
    else if s[a] == '{' then
      var b := SkipSpace(s, a + 1);
      if b < |s| && s[b] == '}' then Some((Obj([]), b + 1))
      else
        match ReadMembers(s, a + 1)
        case None => None
        case Some((members, j)) => Some((Obj(members), j))
    else
      var j := TokenEnd(s, a);
      if IsPrimitive(s[a..j]) then Some((Prim(s[a..j]), j)) else None
  }

  /** One or more values, separated by commas and closed by a bracket. */
  function ReadItems(s: string, i: nat): (r: Option<(seq<Json>, nat)>)
    requires i <= |s|
    ensures r.Some? ==> i < r.value.1 <= |s|
    decreases |s| - i, 2
  {
    match ReadValue(s, i)
    case None => None
    case Some((t, j)) =>
      var b := SkipSpace(s, j);
      if b == |s| then None
      else if s[b] == ']' then Some(([t], b + 1))
      else if s[b] == ',' then
        match ReadItems(s, b + 1)
        case None => None
        case Some((ts, k)) => Some(([t] + ts, k))
      else None
  }

  function ReadMember(s: string, i: nat): (r: Option<(Member, nat)>)
    requires i <= |s|
    ensures r.Some? ==> i < r.value.1 <= |s|
    decreases |s| - i, 2
  {
    var a := SkipSpace(s, i);
    if a == |s| || s[a] != '"' then None
    else
      match ReadChars(s, a + 1)
      case None => None
      case Some((key, j)) =>
        var c := SkipSpace(s, j);
        if c == |s| || s[c] != ':' then None
        else
          match ReadValue(s, c + 1)
          case None => None
          case Some((t, k)) => Some((Member(key, t), k))
  }

  /** One or more members, separated by commas and closed by a brace. */
  function ReadMembers(s: string, i: nat): (r: Option<(seq<Member>, nat)>)
    requires i <= |s|
    ensures r.Some? ==> i < r.value.1 <= |s|
    decreases |s| - i, 3
  {
    match ReadMember(s, i)
    case None => None
    case Some((m, j)) =>
      var b := SkipSpace(s, j);
      if b == |s| then None
      else if s[b] == '}' then Some(([m], b + 1))
      else if s[b] == ',' then
        match ReadMembers(s, b + 1)
        case None => None
        case Some((ms, k)) => Some(([m] + ms, k))
      else None
  }

  /** A JSON text: one value with nothing but space around it. */
  function Read(s: string): Option<Json> {
    match ReadValue(s, 0)
    case Some((t, j)) => if SkipSpace(s, j) == |s| then Some(t) else None
    case None => None
  }

  // ---------------------------------------------------------------- which trees survive

  predicate PlainText(x: string) { forall c | c in x :: PlainChar(c) }

  /** Strings and keys stand for themselves and every other leaf is a number or a literal name. */
  predicate Plain(t: Json) {
    match t
    case Prim(text) => IsPrimitive(text)
    case Str(text) => PlainText(text)
    case Arr(items) => forall x | x in items :: Plain(x)
    case Obj(members) => forall m | m in members :: PlainText(m.key) && Plain(m.val)
  }

  /** No text is cut and no counter comes round to zero. */
  predicate Narrow(t: Json)
    decreases t, 1
  {
    match t
    case Prim(text) => |text| <= 255
    case Str(text) => |text| <= 255
    case Arr(items) => NarrowItems(items)
    case Obj(members) => NarrowMembers(members)
  }

  predicate NarrowItems(items: seq<Json>)
    decreases items, 0
  {
    |items| <= 0x1_0000_0000 && forall x | x in items :: Narrow(x)
  }

  predicate NarrowMembers(members: seq<Member>)
    decreases members, 0
  {
    |members| <= 0x1_0000_0000 && forall m | m in members :: NarrowMember(m)
  }

  predicate NarrowMember(m: Member)
    decreases m, 0
  {
    |m.key| <= 255 && Narrow(m.val)
  }

  // ---------------------------------------------------------------- a plain text is read back

  predicate At(s: string, i: nat, w: string) { i + |w| <= |s| && s[i..i + |w|] == w }

  lemma AtSplit(s: string, i: nat, a: string, b: string)
    requires At(s, i, a + b)
    ensures At(s, i, a) && At(s, i + |a|, b) && i + |a| + |b| <= |s|
  {
    assert (a + b)[..|a|] == a && (a + b)[|a|..] == b;
  }

  lemma AtFirst(s: string, i: nat, w: string)
    requires At(s, i, w) && w != []
    ensures i + |w| <= |s| && s[i] == w[0]
  {
    assert s[i..i + |w|][0] == w[0];
  }

  /** What may follow a value: the end of the text, or a character that is no part of a token. */
  predicate Closed(s: string, i: nat) { i == |s| || (i < |s| && !TokenChar(s[i])) }

  lemma {:induction false} ReadsChars(s: string, i: nat, x: string)
    requires PlainText(x) && At(s, i, x + "\"")
    ensures ReadChars(s, i) == Some((x, i + |x| + 1))
    decreases x
  {
    hide At;
    AtFirst(s, i, x + "\"");
    if x == [] {
      assert (x + "\"")[0] == '"';
    } else {
      assert (x + "\"")[0] == x[0];
      assert x + "\"" == [x[0]] + (x[1..] + "\"");
      AtSplit(s, i, [x[0]], x[1..] + "\"");
      ReadsChars(s, i + 1, x[1..]);
      assert PlainChar(x[0]) && [x[0]] + x[1..] == x;
    }
  }

  lemma {:induction false} TokenEnds(s: string, i: nat, x: string)
    requires At(s, i, x) && (forall c | c in x :: TokenChar(c)) && Closed(s, i + |x|)
    ensures TokenEnd(s, i) == i + |x|
    decreases x
  {
    if x == [] {
    } else {
      AtFirst(s, i, x);
      assert x == [x[0]] + x[1..];
      AtSplit(s, i, [x[0]], x[1..]);
      TokenEnds(s, i + 1, x[1..]);
    }
  }

  lemma TokenFirst(c: char)
    requires TokenChar(c)
    ensures !Space(c) && c != ']' && c != '}' && c != '"' && c != '[' && c != '{'
  {}

  lemma FullStarts(t: Json)
    requires Plain(t)
    ensures Full(t) != [] && !Space(Full(t)[0]) && Full(t)[0] != ']' && Full(t)[0] != '}'
  {
    hide IsNumber, TokenChar;
    if t.Prim? {
      assert t.text[0] in t.text;
      TokenFirst(t.text[0]);
    }
  }

  lemma ReadsPrimitive(s: string, i: nat, x: string)
    requires IsPrimitive(x) && At(s, i, x) && Closed(s, i + |x|)
    ensures i < |s| && ReadValue(s, i) == Some((Prim(x), i + |x|))
  {
    hide IsNumber, TokenChar, ReadChars, ReadItems, ReadMembers;
    TokenEnds(s, i, x);
    AtFirst(s, i, x);
    assert x[0] in x;
    TokenFirst(x[0]);
  }

  /** What the writer owes the reader: a plain value, wherever its full text stands. */
  lemma {:induction false} ReadsBack(s: string, i: nat, t: Json)
    requires Plain(t) && At(s, i, Full(t)) && Closed(s, i + |Full(t)|)
    ensures ReadValue(s, i) == Some((t, i + |Full(t)|))
    decreases t, 1
  {
    hide At, IsNumber, TokenChar, PlainText, ReadChars, ReadItems, ReadMembers, TokenEnd, Closed;
    FullStarts(t);
    AtFirst(s, i, Full(t));
    match t
    case Prim(text) =>
      ReadsPrimitive(s, i, text);
    case Str(text) =>
      assert Full(t) == "\"" + (text + "\"");
      AtSplit(s, i, "\"", text + "\"");
      ReadsChars(s, i + 1, text);
    case Arr(items) =>
      assert Full(t) == "[" + (FullItems(items) + "]");
      AtSplit(s, i, "[", FullItems(items) + "]");
      AtFirst(s, i + 1, FullItems(items) + "]");
      if items != [] { ReadsItems(s, i + 1, items); }
    case Obj(members) =>
      assert Full(t) == "{" + (FullMembers(members) + "}");
      AtSplit(s, i, "{", FullMembers(members) + "}");
      AtFirst(s, i + 1, FullMembers(members) + "}");
      if members != [] { ReadsMembers(s, i + 1, members); }
  }

  lemma FullItemsHead(items: seq<Json>)
    requires items != []
    ensures FullItems(items) + "]"
         == Full(items[0]) + (if |items| == 1 then "]" else "," + (FullItems(items[1..]) + "]"))
  {
    hide Full;
  }

  lemma FullMembersHead(members: seq<Member>)
    requires members != []
    ensures FullMembers(members) + "}"
         == FullMember(members[0]) + (if |members| == 1 then "}" else "," + (FullMembers(members[1..]) + "}"))
  {
    hide FullMember;
  }

  /** One step of the reader of items, and of members. */
  lemma ItemsStep(s: string, i: nat)
    requires i <= |s| && ReadValue(s, i).Some?
    ensures var (t, j) := ReadValue(s, i).value;
      var b := SkipSpace(s, j);
      && (b < |s| && s[b] == ']' ==> ReadItems(s, i) == Some(([t], b + 1)))
      && (b < |s| && s[b] == ',' && ReadItems(s, b + 1).Some? ==>
            ReadItems(s, i) == Some(([t] + ReadItems(s, b + 1).value.0, ReadItems(s, b + 1).value.1)))
  {
    hide ReadValue;
  }

  lemma MembersStep(s: string, i: nat)
    requires i <= |s| && ReadMember(s, i).Some?
    ensures var (m, j) := ReadMember(s, i).value;
      var b := SkipSpace(s, j);
      && (b < |s| && s[b] == '}' ==> ReadMembers(s, i) == Some(([m], b + 1)))
      && (b < |s| && s[b] == ',' && ReadMembers(s, b + 1).Some? ==>
            ReadMembers(s, i) == Some(([m] + ReadMembers(s, b + 1).value.0, ReadMembers(s, b + 1).value.1)))
  {
    hide ReadMember;
  }

  lemma {:induction false} ReadsItems(s: string, i: nat, items: seq<Json>)
    requires items != [] && (forall x | x in items :: Plain(x)) && At(s, i, FullItems(items) + "]")
    ensures ReadItems(s, i) == Some((items, i + |FullItems(items)| + 1))
    ensures SkipSpace(s, i) == i && s[i] != ']'
    decreases items, 0
  {
    hide At, ReadValue, Full, FullItems, Plain, ReadItems;
    FullItemsHead(items);
    var x := items[0];
    assert x in items;
    var w, rest := Full(x), if |items| == 1 then "]" else "," + (FullItems(items[1..]) + "]");
    AtSplit(s, i, w, rest);
    FullStarts(x);
    AtFirst(s, i, w);
    AtFirst(s, i + |w|, rest);
    ReadsBack(s, i, x);
    ItemsStep(s, i);
    if |items| > 1 {
      AtSplit(s, i + |w|, ",", FullItems(items[1..]) + "]");
      ReadsItems(s, i + |w| + 1, items[1..]);
      assert items == [x] + items[1..];
    } else {
      assert items == [x];
    }
  }

  lemma {:induction false} ReadsMember(s: string, i: nat, m: Member)
    requires PlainText(m.key) && Plain(m.val) && At(s, i, FullMember(m)) && Closed(s, i + |FullMember(m)|)
    ensures ReadMember(s, i) == Some((m, i + |FullMember(m)|))
    ensures SkipSpace(s, i) == i && s[i] == '"'
    decreases m, 0
  {
    hide At, ReadValue, ReadChars, Full, Plain, PlainText, Closed;
    var value := Full(m.val);
    assert FullMember(m) == "\"" + ((m.key + "\"") + (":" + value));
    AtSplit(s, i, "\"", (m.key + "\"") + (":" + value));
    AtFirst(s, i, "\"");
    AtSplit(s, i + 1, m.key + "\"", ":" + value);
    ReadsChars(s, i + 1, m.key);
    var j := i + 2 + |m.key|;
    AtFirst(s, j, ":" + value);
    AtSplit(s, j, ":", value);
    ReadsBack(s, j + 1, m.val);
  }

  lemma {:induction false} ReadsMembers(s: string, i: nat, members: seq<Member>)
    requires members != [] && (forall m | m in members :: PlainText(m.key) && Plain(m.val))
    requires At(s, i, FullMembers(members) + "}")
    ensures ReadMembers(s, i) == Some((members, i + |FullMembers(members)| + 1))
    ensures SkipSpace(s, i) == i && s[i] != '}'
    decreases members, 0
  {
    hide At, ReadMember, ReadMembers, FullMember, FullMembers, Plain, PlainText;
    FullMembersHead(members);
    var m := members[0];
    assert m in members;
    var w, rest := FullMember(m), if |members| == 1 then "}" else "," + (FullMembers(members[1..]) + "}");
    AtSplit(s, i, w, rest);
    AtFirst(s, i + |w|, rest);
    ReadsMember(s, i, m);
    MembersStep(s, i);
    if |members| > 1 {
      AtSplit(s, i + |w|, ",", FullMembers(members[1..]) + "}");
      ReadsMembers(s, i + |w| + 1, members[1..]);
      assert members == [m] + members[1..];
    } else {
      assert members == [m];
    }
  }

  // ---------------------------------------------------------------- a text holds no more than it spells

  lemma {:induction false} CharsSpan(s: string, i: nat)
    requires i <= |s| && ReadChars(s, i).Some?
    ensures var (cs, j) := ReadChars(s, i).value; j - i >= |cs| + 1 && (j - i == |cs| + 1 ==> PlainText(cs))
    decreases |s| - i
  {
    if s[i] == '"' {
    } else if s[i] == '\\' {
      CharsSpan(s, Escape(s, i + 1).value.1);
    } else {
      CharsSpan(s, i + 1);
    }
  }

  /** A value is read from no less text than it needs, and from exactly that much only if it is plain. */
  lemma {:induction false} ValueSpan(s: string, i: nat)
    requires i <= |s| && ReadValue(s, i).Some?
    ensures var (t, j) := ReadValue(s, i).value; j - i >= |Full(t)| && (j - i == |Full(t)| ==> Plain(t))
    decreases |s| - i, 1
  {
    hide ReadChars, ReadItems, ReadMembers, SkipSpace, IsPrimitive;
    var a := SkipSpace(s, i);
    if s[a] == '"' {
      CharsSpan(s, a + 1);
    } else if s[a] == '[' {
      var b := SkipSpace(s, a + 1);
      if !(b < |s| && s[b] == ']') { ItemsSpan(s, a + 1); }
    } else if s[a] == '{' {
      var b := SkipSpace(s, a + 1);
      if !(b < |s| && s[b] == '}') { MembersSpan(s, a + 1); }
    }
  }

  lemma {:induction false} ItemsSpan(s: string, i: nat)
    requires i <= |s| && ReadItems(s, i).Some?
    ensures var (ts, j) := ReadItems(s, i).value;
      j - i >= |FullItems(ts)| + 1 && (j - i == |FullItems(ts)| + 1 ==> forall t | t in ts :: Plain(t))
    decreases |s| - i, 2
  {
    ValueSpan(s, i);
    var (t, j) := ReadValue(s, i).value;
    var b := SkipSpace(s, j);
    hide ReadValue, FullItems, Full, Plain;
    ItemsLength(t, []);
    if s[b] == ',' {
      ItemsSpan(s, b + 1);
      ItemsLength(t, ReadItems(s, b + 1).value.0);
    }
  }

  lemma ItemsLength(t: Json, ts: seq<Json>)
    ensures |FullItems([t] + ts)| == |Full(t)| + if ts == [] then 0 else 1 + |FullItems(ts)|
  {
    hide Full;
    assert ([t] + ts)[1..] == ts;
  }

  lemma MembersLength(m: Member, ms: seq<Member>)
    ensures |FullMembers([m] + ms)| == |FullMember(m)| + if ms == [] then 0 else 1 + |FullMembers(ms)|
  {
    hide FullMember;
    assert ([m] + ms)[1..] == ms;
  }

  lemma {:induction false} MemberSpan(s: string, i: nat)
    requires i <= |s| && ReadMember(s, i).Some?
    ensures var (m, j) := ReadMember(s, i).value;
      j - i >= |FullMember(m)| && (j - i == |FullMember(m)| ==> PlainText(m.key) && Plain(m.val))
    decreases |s| - i, 2
  {
    var a := SkipSpace(s, i);
    CharsSpan(s, a + 1);
    ValueSpan(s, SkipSpace(s, ReadChars(s, a + 1).value.1) + 1);
  }

  lemma {:induction false} MembersSpan(s: string, i: nat)
    requires i <= |s| && ReadMembers(s, i).Some?
    ensures var (ms, j) := ReadMembers(s, i).value;
      j - i >= |FullMembers(ms)| + 1 &&
      (j - i == |FullMembers(ms)| + 1 ==> forall m | m in ms :: PlainText(m.key) && Plain(m.val))
    decreases |s| - i, 3
  {
    MemberSpan(s, i);
    var (m, j) := ReadMember(s, i).value;
    var b := SkipSpace(s, j);
    hide ReadMember, FullMembers, FullMember, Plain, PlainText;
    MembersLength(m, []);
    if s[b] == ',' {
      MembersSpan(s, b + 1);
      MembersLength(m, ReadMembers(s, b + 1).value.0);
    }
  }

  // ---------------------------------------------------------------- what the writer leaves out

  lemma {:induction false} FullItemsSnoc(items: seq<Json>, x: Json)
    ensures FullItems(items + [x]) == FullItems(items) + (if items == [] then "" else ",") + Full(x)
    decreases items
  {
    if |items| > 0 {
      FullItemsSnoc(items[1..], x);
      assert (items + [x])[1..] == items[1..] + [x];
    }
  }

  lemma {:induction false} FullMembersSnoc(members: seq<Member>, m: Member)
    ensures FullMembers(members + [m]) == FullMembers(members) + (if members == [] then "" else ",") + FullMember(m)
    decreases members
  {
    if |members| > 0 {
      FullMembersSnoc(members[1..], m);
      assert (members + [m])[1..] == members[1..] + [m];
    }
  }

  /** The writer's text is never longer than the full one, and the same exactly for narrow values. */
  lemma {:induction false} WrittenFull(t: Json)
    ensures |Written(t)| <= |Full(t)|
    ensures |Written(t)| == |Full(t)| <==> Narrow(t)
    ensures Narrow(t) ==> Written(t) == Full(t)
    decreases t, 1
  {
    match t
    case Prim(text) =>
    case Str(text) =>
    case Arr(items) => WrittenFullItems(items);
    case Obj(members) => WrittenFullMembers(members);
  }

  lemma {:induction false} WrittenFullItems(items: seq<Json>)
    ensures |WrittenItems(items)| <= |FullItems(items)|
    ensures |WrittenItems(items)| == |FullItems(items)| <==> NarrowItems(items)
    ensures |WrittenItems(items)| == |FullItems(items)| ==> WrittenItems(items) == FullItems(items)
    decreases items, 0
  {
    hide Written, Full, Narrow;
    if items != [] {
      var k := |items| - 1;
      assert items == items[..k] + [items[k]];
      FullItemsSnoc(items[..k], items[k]);
      WrittenFullItems(items[..k]);
      WrittenFull(items[k]);
    }
  }

  lemma {:induction false} WrittenFullMember(m: Member)
    ensures |WrittenMember(m)| <= |FullMember(m)|
    ensures |WrittenMember(m)| == |FullMember(m)| <==> NarrowMember(m)
    ensures |WrittenMember(m)| == |FullMember(m)| ==> WrittenMember(m) == FullMember(m)
    decreases m, 0
  {
    hide Written, Full, Narrow;
    WrittenFull(m.val);
  }

  lemma {:induction false} WrittenFullMembers(members: seq<Member>)
    ensures |WrittenMembers(members)| <= |FullMembers(members)|
    ensures |WrittenMembers(members)| == |FullMembers(members)| <==> NarrowMembers(members)
    ensures |WrittenMembers(members)| == |FullMembers(members)| ==> WrittenMembers(members) == FullMembers(members)
    decreases members, 0
  {
    hide WrittenMember, FullMember, NarrowMember;
    if members != [] {
      var k := |members| - 1;
      assert members == members[..k] + [members[k]];
      FullMembersSnoc(members[..k], members[k]);
      WrittenFullMembers(members[..k]);
      WrittenFullMember(members[k]);
    }
  }

  /**
   * The round trip, and exactly when it holds: a tree is read back from the writer's text if and only if its texts
   * need no escaping, none is longer than 255 characters, its other leaves are numbers or literal names, and no
   * container has more than 2^32 children.
   */
  lemma {:induction false} RoundTrip(t: Json)
    ensures Read(Written(t)) == Some(t) <==> Plain(t) && Narrow(t)
  {
    var s := Written(t);
    WrittenFull(t);
    if Plain(t) && Narrow(t) {
      ReadsBack(s, 0, t);
    }
    if Read(s) == Some(t) {
      ValueSpan(s, 0);
    }
  }

  /** Trees that are not read back: a string that is one quotation mark comes out as no JSON text at all, of a string of
      256 characters one is lost, and an array of 2^32 + 1 numbers lacks a comma. */
  lemma LostTrees(long: string, many: seq<Json>)
    requires |long| == 256 && PlainText(long) && |many| == 0x1_0000_0001
    ensures Read(Written(Str("\""))) == None
    ensures Read(Written(Str(long))) == Some(Str(long[..255])) && long[..255] != long
    ensures Read(Written(Arr(many))) != Some(Arr(many))
  {
    var q := Written(Str("\""));
    assert q == "\"\"\"";
    assert ReadChars(q, 1) == Some(([], 2));
    assert ReadValue(q, 0) == Some((Str([]), 2));
    var short := long[..255];
    RoundTrip(Str(short));
    assert Cut(short) == short;
    RoundTrip(Arr(many));
  }

  // ---------------------------------------------------------------- integers

  function Decimal(n: int): string { if n < 0 then "-" + DecimalNat(-n) else DecimalNat(n) }

  function DecimalNat(n: nat): string {
    var digit := ('0' as int + n % 10) as char;
    if n < 10 then [digit] else DecimalNat(n / 10) + [digit]
  }

  lemma {:induction false} DecimalDigits(n: nat)
    ensures var x := DecimalNat(n);
      x != [] && (forall c | c in x :: Digit(c)) && (if n == 0 then x == "0" else x[0] != '0')
    decreases n
  {
    if n >= 10 { DecimalDigits(n / 10); }
  }

  lemma {:induction false} DigitsRun(x: string, i: nat)
    requires i <= |x| && forall k | i <= k < |x| :: Digit(x[k])
    ensures DigitsEnd(x, i) == |x|
    decreases |x| - i
  {
    if i < |x| { DigitsRun(x, i + 1); }
  }

  /** The number a text of digits denotes. */
  function Numeral(x: string): int {
    if x == "" then 0 else 10 * Numeral(x[..|x| - 1]) + (x[|x| - 1] as int - '0' as int)
  }

  lemma {:induction false} NatDenotes(n: nat)
    ensures Numeral(DecimalNat(n)) == n
    decreases n
  {
    var digit := ('0' as int + n % 10) as char;
    if n >= 10 {
      NatDenotes(n / 10);
      assert (DecimalNat(n / 10) + [digit])[..|DecimalNat(n)| - 1] == DecimalNat(n / 10);
    } else {
      assert [digit][..0] == "";
    }
  }

  /** The text of an integer denotes that integer: a sign exactly when it is negative, and then its digits. */
  lemma IntegersDenote(n: int)
    ensures var x := Decimal(n);
      x != "" && (x[0] == '-' <==> n < 0) && n == if x[0] == '-' then -Numeral(x[1..]) else Numeral(x)
  {
    DecimalDigits(if n < 0 then -n else n);
    NatDenotes(if n < 0 then -n else n);
    if n < 0 {
      assert Decimal(n)[1..] == DecimalNat(-n);
    } else {
      assert Decimal(n)[0] in DecimalNat(n);
    }
  }

  /** Every integer the writer formats is a number for the reader. */
  lemma IntegersArePlain(n: int)
    ensures Plain(Prim(Decimal(n)))
  {
    var x := Decimal(n);
    var i := if n < 0 then 1 else 0;
    var digits := DecimalNat(if n < 0 then -n else n);
    DecimalDigits(if n < 0 then -n else n);
    assert forall k | i <= k < |x| :: x[k] == digits[k - i] && digits[k - i] in digits;
    DigitsRun(x, i);
    assert x[i] == digits[0];
  }
}
