/** Flat token arrays and the trees they spell, for jsmn/cc_jsmnWrapper.c. */
module JsonTokens {

  datatype Kind = Undefined | Object | Array | String | Primitive

  /** A token covers text[start..end]; a container's size is the number of its children. */
  datatype Token = Token(kind: Kind, start: nat, end: nat, size: int)

  datatype Val = Data(kind: Kind, text: string) | Arr(items: seq<Val>) | Obj(members: seq<KeyVal>)

  datatype KeyVal = KeyVal(key: string, val: Val)

  /** A loop up to a negative size does not run. */
  function Count(size: int): nat { if size < 0 then 0 else size }

  predicate InText(toks: seq<Token>, text: string) { forall t | t in toks :: t.start <= t.end <= |text| }

  // ---------------------------------------------------------------- how many tokens, how many blocks

  function Span(v: Val): (n: nat)
    ensures n >= 1
    decreases v, 1
  {
    match v
    case Data(_, _) => 1
    case Arr(items) => 1 + SpanItems(items)
    case Obj(members) => 1 + SpanMembers(members)
  }

  function SpanItems(items: seq<Val>): nat
    decreases items, 0
  {
    if items == [] then 0 else SpanItems(items[..|items| - 1]) + Span(items[|items| - 1])
  }

  function SpanMembers(members: seq<KeyVal>): nat
    decreases members, 0
  {
    if members == [] then 0 else SpanMembers(members[..|members| - 1]) + 1 + Span(members[|members| - 1].val)
  }

  /** The blocks of memory a value holds: its own, its text or its container with a list, and one for each list
      entry. */
  function Blocks(v: Val): nat
    decreases v, 1
  {
    match v
    case Data(_, _) => 2
    case Arr(items) => 3 + BlocksItems(items)
    case Obj(members) => 3 + BlocksMembers(members)
  }

  function BlocksItems(items: seq<Val>): nat
    decreases items, 0
  {
    if items == [] then 0 else BlocksItems(items[..|items| - 1]) + Blocks(items[|items| - 1]) + 1
  }

  function BlocksMember(m: KeyVal): nat
    decreases m, 0
  {
    2 + Blocks(m.val)
  }

  function BlocksMembers(members: seq<KeyVal>): nat
    decreases members, 0
  {
    if members == [] then 0 else BlocksMembers(members[..|members| - 1]) + BlocksMember(members[|members| - 1]) + 1
  }

  // ---------------------------------------------------------------- what tokens spell

  predicate Spells(toks: seq<Token>, text: string, i: nat, v: Val)
    requires InText(toks, text)
    decreases v, 2
  {
    i < |toks| &&
    match v
    case Data(kind, x) => kind != Object && kind != Array && IsData(toks, text, i, kind, x)
    case Arr(items) => toks[i].kind == Array && |items| == Count(toks[i].size) && SpellsItems(toks, text, i + 1, items)
    case Obj(members) =>
      toks[i].kind == Object && |members| == Count(toks[i].size) && SpellsMembers(toks, text, i + 1, members)
  }

  predicate IsData(toks: seq<Token>, text: string, i: nat, kind: Kind, x: string)
    requires InText(toks, text)
  {
    i < |toks| && toks[i].kind == kind && x == text[toks[i].start..toks[i].end]
  }

  /** The items stand one behind the other. */
  predicate SpellsItems(toks: seq<Token>, text: string, i: nat, items: seq<Val>)
    requires InText(toks, text)
    decreases items, 0
  {
    items == [] ||
    var k := |items| - 1;
    SpellsItems(toks, text, i, items[..k]) && Spells(toks, text, i + SpanItems(items[..k]), items[k])
  }

  /** A key is a string token, and its value follows it. */
  predicate SpellsMember(toks: seq<Token>, text: string, i: nat, m: KeyVal)
    requires InText(toks, text)
    decreases m, 0
  {
    IsData(toks, text, i, String, m.key) && Spells(toks, text, i + 1, m.val)
  }

  predicate SpellsMembers(toks: seq<Token>, text: string, i: nat, members: seq<KeyVal>)
    requires InText(toks, text)
    decreases members, 0
  {
    members == [] ||
    var k := |members| - 1;
    SpellsMembers(toks, text, i, members[..k]) && SpellsMember(toks, text, i + SpanMembers(members[..k]), members[k])
  }

  // ---------------------------------------------------------------- tokens spell one tree

  lemma {:induction false} SpellsOne(toks: seq<Token>, text: string, i: nat, u: Val, v: Val)
    requires InText(toks, text) && Spells(toks, text, i, u) && Spells(toks, text, i, v)
    ensures u == v
    decreases u, 1
  {
    match u
    case Data(_, _) =>
    case Arr(items) =>
      SpellsPrefix(toks, text, i + 1, items, v.items);
      assert items[..|items|] == items;
    case Obj(members) =>
      SpellsMembersPrefix(toks, text, i + 1, members, v.members);
      assert members[..|members|] == members;
  }

  lemma {:induction false} SpellsPrefix(toks: seq<Token>, text: string, i: nat, items: seq<Val>, more: seq<Val>)
    requires InText(toks, text) && SpellsItems(toks, text, i, items) && SpellsItems(toks, text, i, more)
    requires |items| <= |more|
    ensures more[..|items|] == items
    decreases items, 0, more
  {
    if |more| > |items| {
      SpellsPrefix(toks, text, i, items, more[..|more| - 1]);
    } else if items != [] {
      var k := |items| - 1;
      SpellsPrefix(toks, text, i, items[..k], more[..k]);
      assert more[..k] == items[..k];
      SpellsOne(toks, text, i + SpanItems(items[..k]), items[k], more[k]);
    }
  }

  lemma {:induction false} SpellsMembersPrefix(toks: seq<Token>, text: string, i: nat, ms: seq<KeyVal>,
                                                 more: seq<KeyVal>)
    requires InText(toks, text) && SpellsMembers(toks, text, i, ms) && SpellsMembers(toks, text, i, more)
    requires |ms| <= |more|
    ensures more[..|ms|] == ms
    decreases ms, 0, more
  {
    if |more| > |ms| {
      SpellsMembersPrefix(toks, text, i, ms, more[..|more| - 1]);
    } else if ms != [] {
      var k := |ms| - 1;
      SpellsMembersPrefix(toks, text, i, ms[..k], more[..k]);
      assert more[..k] == ms[..k];
      SpellsOne(toks, text, i + SpanMembers(ms[..k]) + 1, ms[k].val, more[k].val);
    }
  }

  // ---------------------------------------------------------------- flattening

  /** All the texts of a value, one behind the other. */
  function Letters(v: Val): string
    decreases v, 1
  {
    match v
    case Data(_, x) => x
    case Arr(items) => LettersItems(items)
    case Obj(members) => LettersMembers(members)
  }

  function LettersItems(items: seq<Val>): string
    decreases items, 0
  {
    if items == [] then "" else LettersItems(items[..|items| - 1]) + Letters(items[|items| - 1])
  }

  function LettersMembers(members: seq<KeyVal>): string
    decreases members, 0
  {
    if members == [] then ""
    else LettersMembers(members[..|members| - 1]) + members[|members| - 1].key + Letters(members[|members| - 1].val)
  }

  /** The tokens of a value in preorder, its letters starting at a. */
  function Flatten(v: Val, a: nat): (r: seq<Token>)
    ensures |r| == Span(v)
    decreases v, 1
  {
    match v
    case Data(kind, x) => [Token(kind, a, a + |x|, 0)]
    case Arr(items) => [Token(Array, a, a + |Letters(v)|, |items|)] + FlattenItems(items, a)
    case Obj(members) => [Token(Object, a, a + |Letters(v)|, |members|)] + FlattenMembers(members, a)
  }

  function FlattenItems(items: seq<Val>, a: nat): (r: seq<Token>)
    ensures |r| == SpanItems(items)
    decreases items, 0
  {
    if items == [] then []
    else
      var k := |items| - 1;
      FlattenItems(items[..k], a) + Flatten(items[k], a + |LettersItems(items[..k])|)
  }

  function FlattenMembers(members: seq<KeyVal>, a: nat): (r: seq<Token>)
    ensures |r| == SpanMembers(members)
    decreases members, 0
  {
    if members == [] then []
    else
      var k := |members| - 1;
      var b := a + |LettersMembers(members[..k])|;
      var c := b + |members[k].key|;
      FlattenMembers(members[..k], a) + [Token(String, b, c, 1)] + Flatten(members[k].val, c)
  }

  /** Every leaf carries a leaf's kind. */
  predicate Proper(v: Val) {
    match v
    case Data(kind, _) => kind != Object && kind != Array
    case Arr(items) => forall x | x in items :: Proper(x)
    case Obj(members) => forall m | m in members :: Proper(m.val)
  }

  predicate Within<T(==)>(s: seq<T>, i: nat, w: seq<T>) { i + |w| <= |s| && s[i..i + |w|] == w }

  lemma WithinSplit<T>(s: seq<T>, i: nat, a: seq<T>, b: seq<T>)
    requires Within(s, i, a + b)
    ensures Within(s, i, a) && Within(s, i + |a|, b)
  {
    assert (a + b)[..|a|] == a && (a + b)[|a|..] == b;
  }

  lemma WithinOne<T>(s: seq<T>, i: nat, x: T, b: seq<T>)
    requires Within(s, i, [x] + b)
    ensures i < |s| && s[i] == x && Within(s, i + 1, b)
  {
    WithinSplit(s, i, [x], b);
    assert s[i..i + 1][0] == x;
  }

  /** Wherever the flattened tokens and the letters they point to stand, they spell the value. */
  lemma {:induction false} FlattenSpells(toks: seq<Token>, text: string, i: nat, v: Val, a: nat)
    requires InText(toks, text) && Proper(v) && Within(toks, i, Flatten(v, a)) && Within(text, a, Letters(v))
    ensures Spells(toks, text, i, v)
    decreases v, 1
  {
    hide Within;
    match v
    case Data(kind, x) =>
      assert Flatten(v, a) == [Token(kind, a, a + |x|, 0)] + [];
      WithinOne(toks, i, Token(kind, a, a + |x|, 0), []);
      WithinIs(text, a, x);
    case Arr(items) =>
      WithinOne(toks, i, Token(Array, a, a + |Letters(v)|, |items|), FlattenItems(items, a));
      FlattenSpellsItems(toks, text, i + 1, items, a);
    case Obj(members) =>
      WithinOne(toks, i, Token(Object, a, a + |Letters(v)|, |members|), FlattenMembers(members, a));
      FlattenSpellsMembers(toks, text, i + 1, members, a);
  }

  lemma WithinIs<T>(s: seq<T>, i: nat, w: seq<T>)
    requires Within(s, i, w)
    ensures i + |w| <= |s| && s[i..i + |w|] == w
  {}

  lemma {:induction false} FlattenSpellsItems(toks: seq<Token>, text: string, i: nat, items: seq<Val>, a: nat)
    requires InText(toks, text) && (forall x | x in items :: Proper(x))
    requires Within(toks, i, FlattenItems(items, a)) && Within(text, a, LettersItems(items))
    ensures SpellsItems(toks, text, i, items)
    decreases items, 0
  {
    hide Within, Proper, Flatten, Letters, Spells, Span;
    if items != [] {
      var k := |items| - 1;
      var b := |LettersItems(items[..k])|;
      WithinSplit(toks, i, FlattenItems(items[..k], a), Flatten(items[k], a + b));
      WithinSplit(text, a, LettersItems(items[..k]), Letters(items[k]));
      FlattenSpellsItems(toks, text, i, items[..k], a);
      FlattenSpells(toks, text, i + SpanItems(items[..k]), items[k], a + b);
    }
  }

  lemma {:induction false} FlattenSpellsMembers(toks: seq<Token>, text: string, i: nat, ms: seq<KeyVal>, a: nat)
    requires InText(toks, text) && (forall m | m in ms :: Proper(m.val))
    requires Within(toks, i, FlattenMembers(ms, a)) && Within(text, a, LettersMembers(ms))
    ensures SpellsMembers(toks, text, i, ms)
    decreases ms, 0
  {
    hide Within, Proper, Flatten, Letters, Spells, Span;
    if ms != [] {
      var k := |ms| - 1;
      var m := ms[k];
      var b := a + |LettersMembers(ms[..k])|;
      var c := b + |m.key|;
      var key := Token(String, b, c, 1);
      var j := i + SpanMembers(ms[..k]);
      assert FlattenMembers(ms, a) == FlattenMembers(ms[..k], a) + ([key] + Flatten(m.val, c));
      assert LettersMembers(ms) == LettersMembers(ms[..k]) + (m.key + Letters(m.val));
      WithinSplit(toks, i, FlattenMembers(ms[..k], a), [key] + Flatten(m.val, c));
      WithinSplit(text, a, LettersMembers(ms[..k]), m.key + Letters(m.val));
      WithinOne(toks, j, key, Flatten(m.val, c));
      WithinSplit(text, b, m.key, Letters(m.val));
      WithinIs(text, b, m.key);
      FlattenSpellsMembers(toks, text, i, ms[..k], a);
      FlattenSpells(toks, text, j + 1, m.val, c);
    }
  }
}
